# AYQ's desktop engine, modelled

AYQ keeps a person's budget beside Actual's. This project models the parts of its
desktop engine whose promises span more than one function, and proves those
promises. It follows the program's own form: what the engine computes by
expressions is functions, what it does step by step is methods and classes over
the same fields, and each such method is proved equal to a function of its input
or old state, about which the laws are then proved.

| file | what it models |
|---|---|
| `Calendar.dfy`, `DateText.dfy` | day and month arithmetic, and what it prints |
| `Recurrence.dfy` | planned records, the dates they fall on, what an occurrence is on a day |
| `Coverage.dfy` | intervals of bank evidence, their union, complete months |
| `Matching.dfy`, `MatchingLaws.dfy`, `NearestMatch.dfy` | the payment matcher, and whom it gives what |
| `Decisions.dfy`, `DecisionLaws.dfy`, `DecisionEffects.dfy` | the table of decisions a person and the matcher write to |
| `Overlap.dfy`, `PlanStates.dfy` | requests that await between reading the store and writing it back; records saved, confirmed and dismissed |
| `Forecasting.dfy`, `ForecastLaws.dfy`, `ForecastEvents.dfy`, `Overdue.dfy` | the forecast |
| `Gate.dfy`, `Opening.dfy` | who may work on the budget at once, and who opens it |
| `BackupSets.dfy`, `Restore.dfy` | backups, and a restore on a disk that may stop at any step |
| `Aliases.dfy` | counterparties, and the rules and names that follow them |
| `Anchors.dfy`, `LedgerOverlap.dfy` | stated balances and the ledger's technical row, at once and with others in between |
| `SeriesDetection.dfy`, `SeriesLaws.dfy` | which histories become offers |
| `Lists.dfy`, `Strings.dfy` | sorting, filtering, sums; text order |

Outside `Calendar.dfy` a date is a day number and a month a month number;
`Calendar.TextOrderIsDayOrder` and `Calendar.MonthTextOrder` are what licenses
that. Money is whole cents.

## How the concurrent and the crashing parts are modelled

**Restore.** A disk is the live budget folders and store, the backups, and the
`.ayq-restore` folder with its incoming files, previous budget, previous store and
journal, and whatever else stands in the data directory. A set's folder may bear
any of those names, and what the code asks of such a name is asked of all of them.
The order the directory is read in is a function of its names. A rename and an
atomic write are one step. A copy is two, torn and then whole, and only on a disk
said to be faithful is it known to be what was read. A recursive removal takes one
entry after another, in any order, so the journal may go before what it describes.
A counter says how many steps are left before the power goes, and a recovery spends
such steps too; what each part of the work leaves behind is stated together with the
steps it takes. The invariant is that until the journal says complete, the old
budget stands in exactly one of its live slot and its previous slot, and likewise
the old store.

**The gate.** A state machine whose steps are the stretches between two awaits.
Those who wait on a run that has settled go on in any order, so no order among
waiters is claimed.

**Opening.** The same, for the variable that holds the open in flight.

**Overlap.** The same again, for requests that read the store, await and write
back what they had read. Eight do: a run (`ayqRunMatching`), a person's match that
may learn (`ayqApplyMatch`), a withdrawal (`ayqRetireInvalidSuggestions`), and five
that decide no occurrence but write the whole store back all the same: the first
part of an import (`ayqImportCamt`), applying the rules (`ayqApplyRules`), filing
one counterparty (`ayqFileCounterparty`), applying the classification
(`ayqApplyFiling`) and filing a scope (`ayqCategoriseScope`). The last five are one
request of the model, which writes or has nothing to write. `Decisions`,
`SeriesDetection`, `Aliases` and `Anchors` speak of each operation as one step;
`Overlap.UndisturbedIsAtOnce` says when that is what happens. Applying an anchor
awaits the ledger four times, which is `LedgerOverlap`.

## Where the code does less than one would expect of it

Each of these is kept as the code has it, with the exact condition proved.

- A set's digest does not cover its budget folder's name, and the check of that
  name lets `.ayq-restore` pass (`BackupSets.FolderIsNotSealed`). Restoring such a
  set moves the live budget and store into the working folder, cannot rename the
  set's budget onto that folder, and then has the recovery remove it as what was
  moved in, with the old pair in it. The safety backup is all that is left
  (`Restore.Disk.ThatNameLosesThePair`). For every other set the result holds.
- Eight requests write back the store they read before they awaited, over whatever
  was decided meanwhile. A pair refused in that time can be matched
  (`Overlap.ARefusedPairIsMatched`), any decision that falls between an import's
  reading and its writing is undone (`Overlap.FilingUndoesAStep`,
  `Overlap.AnImportLosesARefusal`), and so is a balance stated then
  (`Overlap.AnImportLosesAFigure`). When a decision, a figure or an alias survives
  is `Overlap.ARefusalSurvives` and the members after it.
- An anchor is applied to what the ledger held when it was asked. What lands before
  the row is written leaves the balance off by just that
  (`LedgerOverlap.AnImportLandsInBetween`), and two first balances at once leave
  two technical rows (`LedgerOverlap.TwoFirstBalancesMakeTwoRows`), of which every
  later apply corrects one and is off by the other
  (`LedgerOverlap.UndisturbedIsOffByOtherRows`). The code then reads the balance
  back and answers an error, which undoes nothing.
- A pair beyond doubt, the only one for either of its two, is not always proposed as
  that, nor then applied: an occurrence expected sooner may have been offered its
  transaction, and an offer spends it. That is the only way
  (`NearestMatch.OnlyPairIsProposedUnlessSpent`), and it happens with one payment
  typed without a counterparty (`NearestMatch.ASurePairIsOnlyOffered`).
- An expense AYQ only suggests counts, overdue or not. Accepting the suggestion moves
  the day it is expected from to that day, so that what was due before it, still
  unpaid, is no longer in the forecast (`PlanStates.AcceptingForgetsWhatWasDue`).
- A set whose folder is named `ayq-store.json` passes every check on a disk without
  a store, and its store cannot be renamed onto its own budget: the restore fails
  and everything is put back (`Restore.Disk.AnOrdinaryRestoreRestores`).
- What a match teaches a record is not taken back when the match is undone
  (`DecisionLaws.UnmatchUndoesApply`).
- Forgetting an alias restores who a transaction belongs to, but a rule that moved
  with it stays where it went (`Aliases.RulesDoNotComeBack`), and so does a name
  that was carried (`Aliases.CarriedNamesStay`).
- A stated balance is applied whether or not it is the one that stands. With a
  clock that went backwards those differ, and the balance then disagrees with the
  standing anchor (`Anchors.StatingAgrees`, `Anchors.AClockGoneBackDisagrees`).
  Such a clock also lets a bank figure for the same day displace the standing one
  (`Anchors.ReachingNoFurtherKeeps`).
- What the movements account for is said at `ayq-anchors.ts` lines 320-332 to be
  measured from an earlier figure of the bank's; the code takes the latest earlier
  figure whoever stated it (`Anchors.MeasuredFromTheLatest`).
- The comment at `ayq-plan.ts` line 801 says a pass that withdraws an offer and
  finds a better one for the same counterparty does both. It does so only at
  another amount: the retired record still holds its counterparty and amount, so
  a new rhythm at that amount is never offered
  (`SeriesDetection.WithdrawnIsNotReplaced`,
  `SeriesDetection.AKnownIdentityIsNeverOffered`).
- The comment at `ayq-plan.ts` lines 434-435 says an offer's amount is the last
  charge or an average, whichever is more; it is the amount every payment of the
  series had (`SeriesLaws.WhatAPassOffers`).
- The gate is taken after exclusive work has been called. Work that throws when it
  is called, on an idle gate, instead of answering a promise would leave it taken
  for good (`Gate.SoundUnlessACallThrows`, `Gate.WedgedForGood`). No caller in the
  engine can do that: each passes an async function, whose throws are answered as
  a promise (`Gate.AnAsyncBodyThatThrowsOpensTheGate`).
- The months of a forecast stop at six hundred, its events do not; the last month
  closes short of the forecast by exactly what moves later
  (`ForecastLaws.OnlyWhatIsBeyondIsMissing`).
- `ayqDaysInMonth` answers 28 for February of the year 0000, since `Date.UTC`
  reads a year below 100 as one of the 1900s. It is right for every other month
  (`Calendar.DaysInMonthIsRight`), and a month's bounds with it
  (`Calendar.MonthBounds`).
- Counting days or months out of the years 0000 to 9999 prints no date: the year
  has a sign or a fifth digit, or the text is cut off after its month
  (`DateText.AddDaysIsADateWhen`, `DateText.AddMonthsIsADateWhen`,
  `DateText.WhatIsCutOff`).

## Model

| member | source | states |
|---|---|---|
| `Calendar.FromDayIsADate` | ayq/ayq-desktop/src/ayq-dates.ts:28-32 | every day number is a real date, and that date counts back to it |
| `Calendar.DayOrder` | ayq/ayq-desktop/src/ayq-dates.ts:56-61 | day numbers order dates exactly as the calendar does, and two dates share one only if they are the same |
| `Calendar.FromDayOfDayNumber` | ayq/ayq-desktop/src/ayq-dates.ts:28-32 | a date survives being counted and read back |
| `Calendar.DaysInMonthIsRight` | ayq/ayq-desktop/src/ayq-dates.ts:24-26 | the length of a month, read through `Date.UTC`, is right except for February of the year 0000 |
| `Calendar.YearNoughtIsReadAs1900` | ayq/ayq-desktop/src/ayq-dates.ts:24-26 | the one wrong answer: 28 days for a month that has 29 |
| `Calendar.AddDaysIsExact` | ayq/ayq-desktop/src/ayq-dates.ts:28-32 | adding days moves the day by exactly the count, and `ayqDaysBetween` measures it back; what is printed of it is `DateText.AddDaysIsADateWhen` |
| `Calendar.AddDaysActs` | ayq/ayq-desktop/src/ayq-dates.ts:28-32 | adding days is a group action: nought does nothing, and two moves add |
| `Calendar.AddDaysReaches` | ayq/ayq-desktop/src/ayq-dates.ts:28-61 | adding the days between two dates leads from one to the other |
| `DateText.AddDaysIsADateWhen` | ayq/ayq-desktop/src/ayq-dates.ts:28-32 | what is printed is a date exactly when the day counted to is in the years 0000 to 9999, and then it is that day |
| `DateText.AddMonthsIsADateWhen` | ayq/ayq-desktop/src/ayq-dates.ts:15-53 | what is printed is a date exactly when the month counted to is in the years 0000 to 9999, and then it is the date meant |
| `DateText.WhatIsCutOff` | ayq/ayq-desktop/src/ayq-dates.ts:28-32 | outside those years what is printed of a day is the sign, the year in six digits and the month, and no day |
| `Calendar.AddMonthsKeepsTheDay` | ayq/ayq-desktop/src/ayq-dates.ts:34-53 | the result is in the month counted to, on the same day or on that month's last |
| `Calendar.AddMonthsGrowsWithTheCount` | ayq/ayq-desktop/src/ayq-dates.ts:43-53 | more months are strictly later |
| `Calendar.AddMonthsGrowsWithTheDate` | ayq/ayq-desktop/src/ayq-dates.ts:43-53 | from a later date, as many months are no earlier |
| `Calendar.ShiftMonthsLandsIn` | ayq/ayq-desktop/src/ayq-dates.ts:80-82 | months added to a day land that many months on |
| `Calendar.MonthBounds` | ayq/ayq-desktop/src/ayq-dates.ts:63-77 | a month's start and end enclose exactly its days, for every month but February 0000 |
| `Calendar.NextMonthIsNext` | ayq/ayq-desktop/src/ayq-dates.ts:80-82 | a month plus one is the next month |
| `Calendar.MonthsListsEach` | ayq/ayq-desktop/src/ayq-dates.ts:84-95 | the months between two are listed once each, in order, up to the six hundredth |
| `Calendar.MonthsBetween` | ayq/ayq-desktop/src/ayq-dates.ts:85-95 | the loop over the cursor computes that list |
| `Calendar.TextOrderIsDayOrder` | ayq/ayq-desktop/src/ayq-dates.ts:19-21 | for years 0000 to 9999, comparing dates as text is comparing them as days |
| `Calendar.MonthTextOrder` | ayq/ayq-desktop/src/ayq-dates.ts:63-66 | the same for months cut out of dates |
| `Coverage.Union` | ayq/ayq-desktop/src/ayq-evidence.ts:60-81 | the loop that extends the last interval in place computes the union |
| `Coverage.UnionDenotesItsInput` | ayq/ayq-desktop/src/ayq-evidence.ts:52-81 | the union holds exactly the days of its input, in order, with an uncovered day between neighbours |
| `Coverage.NormalFormIsUnique` | ayq/ayq-desktop/src/ayq-evidence.ts:52-81 | two interval lists of that form with the same days are the same list |
| `Coverage.UnionIsCanonical` | ayq/ayq-desktop/src/ayq-evidence.ts:60-81 | unions are equal exactly when the inputs denote the same days; a union of a union is itself |
| `Coverage.CoversEveryDay` | ayq/ayq-desktop/src/ayq-evidence.ts:83-90 | a stretch is covered exactly when every single day is in some interval |
| `Coverage.ProvenIntervals` | ayq/ayq-desktop/src/ayq-evidence.ts:38-50 | only this account's evidence with a known start, not back to front, is united |
| `Coverage.IntervalsOfProven` | ayq/ayq-desktop/src/ayq-evidence.ts:30-50 | a day is proven exactly when some such evidence includes it |
| `Coverage.HeldEveryDay` | ayq/ayq-desktop/src/ayq-evidence.ts:164-172 | an account holds a month exactly when each of its days is proven |
| `Coverage.EveryAccountHolds` | ayq/ayq-desktop/src/ayq-evidence.ts:203-215 | the loop that stops at the first failing account answers for all participating ones |
| `Coverage.CompleteByAccount` | ayq/ayq-desktop/src/ayq-evidence.ts:160-182 | a month is complete exactly when some account takes part and all that do hold it |
| `Coverage.CompleteMonths` | ayq/ayq-desktop/src/ayq-evidence.ts:184-220 | exactly the asked-for months that are complete are answered |
| `Coverage.MoreEvidenceKeepsAMonth` | ayq/ayq-desktop/src/ayq-evidence.ts:160-182 | for fixed lifetimes, more evidence never makes a complete month incomplete |
| `Recurrence.StepThrough` | ayq/ayq-desktop/src/ayq-plan-series.ts:115-124 | the bounded loop by index collects the rhythm dates of a window |
| `Recurrence.OccurrenceDates` | ayq/ayq-desktop/src/ayq-plan-series.ts:90-125 | the dates of a record in a window, floor, end and cap included; what those dates are is the five members that follow |
| `Recurrence.RhythmGrows` | ayq/ayq-desktop/src/ayq-plan-series.ts:115-124 | a rhythm's dates strictly increase with the index |
| `Recurrence.MonthlyNeverDrifts` | ayq/ayq-desktop/src/ayq-plan-series.ts:82-88 | each date of a month-based rhythm is as many months from the start as its index says and on the start's day or its month's last |
| `Recurrence.EachDateIsSoManyPeriodsOn` | ayq/ayq-desktop/src/ayq-plan-series.ts:66-124 | the date at an index is the start plus index times the interval times 7 or 14 days, or 1, 3, 6 or 12 months on the start's day or that month's last; the interval is the nearest whole number, a half upwards, at least one |
| `Recurrence.WhenARecordFalls` | ayq/ayq-desktop/src/ayq-plan-series.ts:41-125 | a record falls on a date exactly when it is among the first four thousand of its rhythm, not before the start, nor before the day it was suggested or confirmed, nor after the end |
| `Recurrence.DatesAreWhereItFalls` | ayq/ayq-desktop/src/ayq-plan-series.ts:90-125 | the dates of a window are increasing, and are exactly those in it where the record falls |
| `Recurrence.WindowsJoin` | ayq/ayq-desktop/src/ayq-plan-series.ts:90-125 | the dates of a window are those of one part followed by those of the next |
| `Recurrence.OccurrenceInAnyWindow` | ayq/ayq-desktop/src/ayq-plan-series.ts:127-130 | asking about one date agrees with looking for it in any window round it |
| `Recurrence.OccurrencesFor` | ayq/ayq-desktop/src/ayq-plan-series.ts:179-196 | the inner loop reads each date of the window with its decision |
| `Recurrence.OccurrencesBetween` | ayq/ayq-desktop/src/ayq-plan-series.ts:162-209 | the occurrences of all records, sorted |
| `Recurrence.OccurrencesAreWhatIsPlanned` | ayq/ayq-desktop/src/ayq-plan-series.ts:156-209 | an occurrence is listed exactly when a record not retired falls on its date, read with its decision |
| `Recurrence.WhatAnOccurrenceIs` | ayq/ayq-desktop/src/ayq-plan-series.ts:132-195 | told of the record and the row: struck if either is dismissed, else matched, else overdue once its day is past, else moved or to come; with the record's money, on the day it was moved to |
| `Recurrence.PlanWindow` | ayq/ayq-desktop/src/ayq-plan-series.ts:217-237 | the window reaches from the earliest expectation, or today, to the horizon |
| `Recurrence.WhatTheWindowSpans` | ayq/ayq-desktop/src/ayq-plan-series.ts:217-237 | it begins on the earliest day any record can be expected, or today if that is sooner, and ends twelve months on, on the same day or that month's last |
| `Matching.Ambiguity` | ayq/ayq-desktop/src/ayq-match.ts:158-194 | the two maps count qualifying pairs for each occurrence and each transaction |
| `Matching.BestFor` | ayq/ayq-desktop/src/ayq-match.ts:221-256 | the inner loop keeps the best open candidate; which that is, is `NearestMatch.TheNearestIsBest` |
| `Matching.ProposeMatches` | ayq/ayq-desktop/src/ayq-match.ts:205-265 | the greedy pass in date order over what is not used; who gets what is `NearestMatch.EachGetsTheNearestLeft` |
| `MatchingLaws.QualifyingPairsAgree` | ayq/ayq-desktop/src/ayq-match.ts:133-149 | a pair qualifies exactly when it is identified, to the cent, within seven days, not taken and not refused |
| `MatchingLaws.CountsMeanOnlyPair` | ayq/ayq-desktop/src/ayq-match.ts:151-194 | both counts are one exactly when the pair is the only qualifying one for its occurrence and for its transaction |
| `MatchingLaws.BestIsBest` | ayq/ayq-desktop/src/ayq-match.ts:221-272 | the best is eligible and comes before every other eligible proposal; what comes before what is told of dates and ids in the member below |
| `NearestMatch.OfferedIsWorthIt` | ayq/ayq-desktop/src/ayq-match.ts:77-119 | a pair is worth offering exactly when it is on the same side of nought, a fortnight apart at most, and to the cent or identified and within a tenth |
| `NearestMatch.TheNearestIsBest` | ayq/ayq-desktop/src/ayq-match.ts:221-272 | of what an occurrence may have it gets one beyond doubt before an offer, the nearest of those equally sure, and the first by id of those equally near; nothing only when there is nothing |
| `NearestMatch.TurnsAreInOrder` | ayq/ayq-desktop/src/ayq-match.ts:210-212 | an occurrence's turn comes after those expected sooner and those expected that day and listed before it, and no others |
| `NearestMatch.EachGetsTheNearestLeft` | ayq/ayq-desktop/src/ayq-match.ts:196-272 | over a whole pass each occurrence gets just that of what those whose turn came first left, and the proposal says dates, cents and reasons of that pair |
| `NearestMatch.OnlyPairIsProposedUnlessSpent` | ayq/ayq-desktop/src/ayq-match.ts:196-265 | a pair beyond doubt is proposed as that exactly when no occurrence whose turn came first was proposed its transaction |
| `NearestMatch.AnEarlierOfferTakesIt` | ayq/ayq-desktop/src/ayq-match.ts:223-260 | an offer to an occurrence expected sooner takes the transaction, and nothing is confident |
| `NearestMatch.ASurePairIsOnlyOffered` | ayq/ayq-desktop/src/ayq-match.ts:223-260 | as when a payment typed without a counterparty is expected the day before |
| `MatchingLaws.ProposalsAreSound` | ayq/ayq-desktop/src/ayq-match.ts:196-265 | no occurrence or transaction is proposed twice, nor a taken or refused one; confident means the only qualifying pair |
| `MatchingLaws.ConfidentIsOnlyPair` | ayq/ayq-desktop/src/ayq-match.ts:246-253 | a proposal is confident exactly when its pair is the only one, either way |
| `MatchingLaws.ProposalsAreMaximal` | ayq/ayq-desktop/src/ayq-match.ts:214-262 | an occurrence is left without a proposal only when nothing eligible was left for it |
| `MatchingLaws.AppliedTogether` | ayq/ayq-desktop/src/ayq-match.ts:246-253 | applied pairs go as pairs: no qualifying pair joins an applied half to one that is left |
| `MatchingLaws.TalliesAgree` | ayq/ayq-desktop/src/ayq-match.ts:151-194 | removing applied pairs leaves every other ambiguity count as it was |
| `MatchingLaws.AssignStays` | ayq/ayq-desktop/src/ayq-match.ts:214-262 | and leaves every other greedy choice as it was |
| `MatchingLaws.MatchingAgain` | ayq/ayq-desktop/src/ayq-match.ts:205-265 | asking again after applying offers exactly what was left waiting, in the same order, none of it confident |
| `Decisions.PutLookup` | ayq/ayq-desktop/src/ayq-plan.ts:351-373 | writing a row changes the decision of its own occurrence and of no other |
| `Decisions.PlanStore.Decide` | ayq/ayq-desktop/src/ayq-plan.ts:352-373 | the row of an occurrence, pushed if this is the first decision |
| `Decisions.PlanStore.ApplyMatch` | ayq/ayq-desktop/src/ayq-plan.ts:707-754 | a person's match: refused if the transaction is matched elsewhere, drops the refusal, learns the key |
| `Decisions.PlanStore.RejectMatch` | ayq/ayq-desktop/src/ayq-plan.ts:757-777 | a refusal is kept once, and takes back that pair's match |
| `Decisions.PlanStore.Unmatch` | ayq/ayq-desktop/src/ayq-plan.ts:780-794 | match, moment and provenance go together |
| `Decisions.PlanStore.Reschedule` | ayq/ayq-desktop/src/ayq-plan.ts:389-402 | moving an occurrence; back to its own date is no move |
| `Decisions.PlanStore.DismissOccurrence` | ayq/ayq-desktop/src/ayq-plan.ts:404-414 | dismissing one occurrence |
| `Decisions.PlanStore.RemovePlan` | ayq/ayq-desktop/src/ayq-plan.ts:336-349 | the record and its decisions go |
| `Decisions.PlanStore.RunMatching` | ayq/ayq-desktop/src/ayq-plan.ts:666-697 | confident proposals are applied, never over a person's, and the rest are handed back; what is given to it is `DecisionLaws.OpenReachesTheMatcher` |
| `DecisionLaws.MatchInputIsWellFormed` | ayq/ayq-desktop/src/ayq-plan.ts:624-656 | what is given to the matcher has distinct occurrences and candidates |
| `DecisionLaws.GivenIsOpen` | ayq/ayq-desktop/src/ayq-plan.ts:624-656 | what is given is unmatched and undismissed, with exactly its refusals |
| `DecisionLaws.OpenReachesTheMatcher` | ayq/ayq-desktop/src/ayq-plan.ts:624-634 | an occurrence is given to the matcher exactly when its record, neither withdrawn nor dismissed, falls in the window and its row has no match and is not dismissed, overdue or not |
| `DecisionLaws.GivenReadsAs` | ayq/ayq-desktop/src/ayq-plan.ts:624-656 | with the record's money and keys, on the day it was moved to, the transactions matched anywhere taken, and those in its row refused |
| `DecisionLaws.RunHolds` | ayq/ayq-desktop/src/ayq-plan.ts:658-697 | a run applies every confident proposal, keeps the table sound, and alters no row that was matched |
| `DecisionLaws.PerformHolds` | ayq/ayq-desktop/src/ayq-plan.ts:336-414 | every operation keeps: one row an occurrence, a transaction matched once, never refused where matched, match, moment and provenance null together |
| `DecisionLaws.EverySequenceHolds` | ayq/ayq-desktop/src/ayq-plan.ts:666-794 | so does every sequence of runs and a person's operations |
| `DecisionLaws.RunningTwiceIsRunningOnce` | ayq/ayq-desktop/src/ayq-plan.ts:658-697 | a second run on unchanged data applies nothing, changes nothing and offers exactly what the first left |
| `DecisionLaws.RejectingRefuses` | ayq/ayq-desktop/src/ayq-plan.ts:756-777 | after a refusal the pair is refused, and no longer matched if it was |
| `DecisionLaws.RefusalStands` | ayq/ayq-desktop/src/ayq-plan.ts:756-777 | and stays so through every sequence that does not match that very pair or remove the record |
| `DecisionLaws.RefusedIsNotOffered` | ayq/ayq-desktop/src/ayq-plan.ts:756-777 | a refused pair is not in what a run proposes |
| `DecisionLaws.UnmatchUndoesApply` | ayq/ayq-desktop/src/ayq-plan.ts:707-794 | undoing a match leaves the occurrence unmatched and others alone; its row is as before exactly if it was unmatched and had not refused, and the records exactly if there was nothing to learn |
| `DecisionLaws.OthersAreLeftAlone` | ayq/ayq-desktop/src/ayq-plan.ts:351-373 | a person's decision about one occurrence leaves the decision about every other |
| `DecisionLaws.ReschedulingMoves` | ayq/ayq-desktop/src/ayq-plan.ts:389-402 | moved, an occurrence is expected on that day, its own included; moved back it is as it was exactly if it had not been moved |
| `DecisionLaws.DismissingStrikes` | ayq/ayq-desktop/src/ayq-plan.ts:404-414 | dismissed, it is struck in any state; taken back it is as it was exactly if it had not been |
| `DecisionLaws.MatchingTeaches` | ayq/ayq-desktop/src/ayq-plan.ts:699-750 | a match teaches a record without a counterparty its key and, if it has none, its mandate, and changes nothing else |
| `DecisionEffects.FaultIs` | ayq/ayq-desktop/src/ayq-plan.ts:375-387 | a decision is refused as not found exactly when no record has the id, and as not on that date exactly when the record does not fall there |
| `DecisionEffects.WhatAMatchLeaves` | ayq/ayq-desktop/src/ayq-plan.ts:707-736 | refused exactly when another occurrence has the transaction; made, the row has it, the moment and the person, and no longer refuses it |
| `DecisionEffects.WhatARefusalLeaves` | ayq/ayq-desktop/src/ayq-plan.ts:757-777 | the row refuses it, once, and has lost the match with moment and provenance if it was that one |
| `DecisionEffects.WhatUndoingLeaves` | ayq/ayq-desktop/src/ayq-plan.ts:780-794 | match, moment and provenance are gone and the rest of the row is as it was |
| `DecisionEffects.WhatAMoveLeaves` | ayq/ayq-desktop/src/ayq-plan.ts:389-402 | the row has the new day, or none when it is its own, and the rest as it was |
| `DecisionEffects.WhatADismissalLeaves` | ayq/ayq-desktop/src/ayq-plan.ts:404-414 | the row is dismissed or not, as said, and the rest as it was |
| `DecisionEffects.WhatRemovingLeaves` | ayq/ayq-desktop/src/ayq-plan.ts:336-349 | no record of that id and no row of it, and every other record and row |
| `DecisionEffects.WhatARunLeaves` | ayq/ayq-desktop/src/ayq-plan.ts:679-693 | each confident proposal is in its row as matched now and automatically, and the rest of the row is as it was |
| `DecisionEffects.WhatAMatchTeaches` | ayq/ayq-desktop/src/ayq-plan.ts:738-750 | exactly what a record learns: a counterparty it had none of and, with it, a mandate it had none of; an empty text is neither |
| `DecisionEffects.AnUnknownTransactionTeachesNothing` | ayq/ayq-desktop/src/ayq-plan.ts:738-750 | and nothing of a transaction nothing is known of |
| `PlanStates.WhatAChangeOfStateLeaves` | ayq/ayq-desktop/src/ayq-plan.ts:310-334 | a record's state changes and nothing of any other; confirmed it is a person's, from the day it first was |
| `PlanStates.WhatSavingLeaves` | ayq/ayq-desktop/src/ayq-plan.ts:285-308 | a record saved takes the place of the one with its id, or comes last |
| `PlanStates.AcceptedItFallsFromThen` | ayq/ayq-desktop/src/ayq-plan.ts:325-332 | an offer accepted falls on the days it did from that day on, and on no other |
| `PlanStates.ConfirmedItFallsAsItDid` | ayq/ayq-desktop/src/ayq-plan.ts:327-331 | once confirmed, dismissing it and confirming it again leave the days it falls on |
| `PlanStates.AcceptingForgetsWhatWasDue` | ayq/ayq-desktop/src/ayq-plan.ts:325-332 | an unpaid expense of an offer is one event of the forecast; the offer accepted, it is one exactly if it is due that day or later, and else none |
| `PlanStates.OnlyWhatMayLearnAwaits` | ayq/ayq-desktop/src/ayq-plan.ts:715-741 | a person's match awaits between reading and writing exactly when it will be made and the record has no counterparty |
| `Overlap.EveryInterleavingHolds` | ayq/ayq-desktop/src/ayq-plan.ts:666-754 | over every interleaving of requests that await between reading and writing: the table invariant, aliases that lead to no alias, one rule a counterparty |
| `Overlap.UndisturbedIsAtOnce` | ayq/ayq-desktop/src/ayq-plan.ts:671-695 | a request nothing comes between is the one step the other results speak of |
| `Overlap.ARefusalSurvives` | ayq/ayq-desktop/src/ayq-plan.ts:671-695 | a refusal survives a late write exactly when nothing is written, or it had been read and is not taken back |
| `Overlap.ADecisionSurvivesARun` | ayq/ayq-desktop/src/ayq-plan.ts:666-697 | any other decision survives a late run exactly when the run applies nothing, or had read it and matches another occurrence |
| `Overlap.ADecisionSurvivesAMatch` | ayq/ayq-desktop/src/ayq-plan.ts:715-752 | and a late match of another occurrence exactly when that is refused, or had read it |
| `Overlap.ARecordSurvivesAWithdrawal` | ayq/ayq-desktop/src/ayq-plan.ts:552-576 | a record a person has decided about survives a late withdrawal exactly when nothing is withdrawn, or it had been read so |
| `Overlap.ADecisionSurvivesFiling` | ayq/ayq-desktop/src/ayq-camt-import.ts:273-352 | any decision or record survives an import's late write, or any other filing's, exactly when there was nothing to write or it had been read so |
| `Overlap.RefusalStandsUnlessWrittenOver` | ayq/ayq-desktop/src/ayq-plan.ts:666-777 | over a whole interleaving a refusal stands throughout exactly when none of the eight writes over it |
| `Overlap.HistoryStandsUnlessWrittenOver` | ayq/ayq-desktop/src/ayq-anchors.ts:103-131 | over a whole interleaving the figures stated so far stay, in order and unaltered, exactly as long as no request writes back a store read before them |
| `Overlap.AFigureSurvives` | ayq/ayq-desktop/src/ayq-anchors.ts:120-131 | a stated figure survives a late write exactly when nothing is written, or it had been read |
| `Overlap.EveryFigureWasStated` | ayq/ayq-desktop/src/ayq-anchors.ts:103-131 | nothing is rewritten: over every interleaving each figure is one that was there or had been read, or that a request states |
| `Overlap.AnAliasStandsUnlessWrittenOver` | ayq/ayq-desktop/src/ayq-aliases.ts:305-386 | over a whole interleaving an alias nobody changes stays exactly as long as no request writes back a store read without it |
| `Overlap.ARefusedPairIsMatched` | ayq/ayq-desktop/src/ayq-plan.ts:671-695 | refused while a run awaits its candidates, the very pair is matched and the refusal is gone |
| `Overlap.FilingUndoesAStep` | ayq/ayq-desktop/src/ayq-camt-import.ts:273-352 | anything decided between an import's reading and its writing is undone: the store is what it was |
| `Overlap.AnImportLosesARefusal` | ayq/ayq-desktop/src/ayq-camt-import.ts:273-352 | so a refusal made then does not stand |
| `Overlap.AnImportLosesAFigure` | ayq/ayq-desktop/src/ayq-camt-import.ts:273-352 | and a balance stated then is gone from the history |
| `Forecasting.GatherRecords` | ayq/ayq-desktop/src/ayq-forecast.ts:137-163 | events from occurrences that count, and their totals by month and category |
| `Forecasting.StillPlanned` | ayq/ayq-desktop/src/ayq-forecast.ts:165-176 | what one plan row adds beyond the records |
| `Forecasting.GatherPlan` | ayq/ayq-desktop/src/ayq-forecast.ts:165-190 | plan events, at the start of their month or today |
| `Forecasting.RunBalance` | ayq/ayq-desktop/src/ayq-forecast.ts:200-220 | the running balance and its lowest point |
| `Forecasting.FillMonths` | ayq/ayq-desktop/src/ayq-forecast.ts:222-239 | each month's flows and last balance |
| `Forecasting.CarryClosings` | ayq/ayq-desktop/src/ayq-forecast.ts:240-249 | a quiet month closes where the one before did |
| `Forecasting.ComputeForecast` | ayq/ayq-desktop/src/ayq-forecast.ts:132-261 | the whole forecast; what its events are is `ForecastEvents.EveryEventIsOfSomething` and `Overdue.CountedOnce` |
| `ForecastLaws.EventsAreInOrder` | ayq/ayq-desktop/src/ayq-forecast.ts:192-198 | events are in date order, money out before money in |
| `ForecastEvents.EveryEventIsOfSomething` | ayq/ayq-desktop/src/ayq-forecast.ts:137-190 | every event is of an occurrence expected to move, on the later of its day and today, or of a plan row, for what is planned beyond what is expected, on its month's first day or today |
| `ForecastEvents.EveryRowThatAddsIsThere` | ayq/ayq-desktop/src/ayq-forecast.ts:165-190 | and every plan row that adds anything has its event: what is left of the month under way, the whole of a later one |
| `ForecastLaws.LowestIsTheLeast` | ayq/ayq-desktop/src/ayq-forecast.ts:205-220 | the lowest point is the least over every prefix, the start included, at the first that reaches it |
| `ForecastLaws.LowestIsPessimal` | ayq/ayq-desktop/src/ayq-forecast.ts:192-220 | any other date-respecting order has a lowest point at least as high, and if it too puts money out first the very same one, date and all |
| `ForecastLaws.ForecastLowestIsPessimal` | ayq/ayq-desktop/src/ayq-forecast.ts:192-220 | so the lowest point a forecast states is that of no order that looks worse |
| `ForecastLaws.PlanFillsUp` | ayq/ayq-desktop/src/ayq-forecast.ts:92-108 | plan events raise a category's month to the larger of plan and records |
| `ForecastLaws.PlanAndRecordsNeverCountTwice` | ayq/ayq-desktop/src/ayq-forecast.ts:92-190 | a category's expected expense in a month is whichever is larger, its plan or its records, and not both |
| `ForecastLaws.ForecastClosings` | ayq/ayq-desktop/src/ayq-forecast.ts:222-249 | each month states its income and expense and closes at the funds and all events up to its end |
| `ForecastLaws.MonthsChain` | ayq/ayq-desktop/src/ayq-forecast.ts:231-249 | a closing is the one before, or the funds, plus income less expense |
| `ForecastLaws.OnlyWhatIsBeyondIsMissing` | ayq/ayq-desktop/src/ayq-forecast.ts:132-134 | the forecast closes at the last listed month's closing and whatever moves after it |
| `ForecastLaws.LastMonthClosesTheForecast` | ayq/ayq-desktop/src/ayq-forecast.ts:222-261 | which is nothing when the horizon is within six hundred months |
| `ForecastLaws.UnknownFundsKeepTheRest` | ayq/ayq-desktop/src/ayq-forecast.ts:200-239 | unknown funds null every balance and leave all events and flows identical |
| `ForecastLaws.MoreExpenseNeverHelps` | ayq/ayq-desktop/src/ayq-forecast.ts:132-261 | one more expected expense never makes a month close higher, whatever plan it takes the place of |
| `Overdue.OverdueStaysOverdue` | ayq/ayq-desktop/src/ayq-plan-series.ts:217-237 | an overdue occurrence is, on every later day, still shown and still overdue, and an expense still counts, as of that day |
| `Overdue.CountedOnce` | ayq/ayq-desktop/src/ayq-forecast.ts:48-157 | an occurrence is one event, of its money on the later of its day and today, exactly when it is neither matched nor dismissed, is an expense or else neither overdue nor suggested, and that day is by the horizon; else none |
| `Overdue.CountedThroughItsRow` | ayq/ayq-desktop/src/ayq-forecast.ts:60-163 | the same told of records and rows: none once the row has a transaction or is dismissed, or the record is |
| `Overdue.NotShownNotCounted` | ayq/ayq-desktop/src/ayq-forecast.ts:141-163 | none outside the plan's window, off the record's dates, or of a record withdrawn |
| `Overdue.OverdueExpenseNeverFallsAway` | ayq/ayq-desktop/src/ayq-forecast.ts:76-90 | an overdue expense is, in the forecast of every later day, subtracted exactly once, dated that day |
| `Gate.EveryRunIsSound` | ayq/ayq-desktop/src/ayq-gate.ts:21-60 | through every interleaving the count is that of the shared bodies, the gate is held by one, and a sleeper has someone to wake it |
| `Gate.ExclusiveRunsAlone` | ayq/ayq-desktop/src/ayq-gate.ts:14-19 | an exclusive body runs beside no other body; nobody sleeps while nothing shared runs |
| `Gate.NothingStartsWhileHeld` | ayq/ayq-desktop/src/ayq-gate.ts:27-58 | while the gate is held no shared body starts and only its holder lets go |
| `Gate.TheDrainComesDown` | ayq/ayq-desktop/src/ayq-gate.ts:27-58 | while the gate is held every step that keeps it lowers a measure: arrivals and waiters to come, shared bodies, and the sleeper's stages |
| `Gate.TheDrainEnds` | ayq/ayq-desktop/src/ayq-gate.ts:34-50 | so a held stretch is no longer than that measure, and its shared bodies only get fewer |
| `Gate.WhoeverSleepsRuns` | ayq/ayq-desktop/src/ayq-gate.ts:46-51 | and until its holder runs alone there is a step to take: whoever sleeps does run |
| `Gate.NeverStuck` | ayq/ayq-desktop/src/ayq-gate.ts:27-58 | whoever has arrived and is not finished, somebody can move |
| `Gate.AnAsyncBodyThatThrowsOpensTheGate` | ayq/ayq-desktop/src/ayq-gate.ts:46-56 | an async body that throws, before its first await too, ends like any other and the gate is open again |
| `Gate.AThrowingCallWedges` | ayq/ayq-desktop/src/ayq-gate.ts:46-56 | exclusive work that, called on an idle gate, throws instead of answering a promise leaves the gate taken by a finished run |
| `Gate.WedgedForGood` | ayq/ayq-desktop/src/ayq-gate.ts:42-45 | and nothing that happens after opens it |
| `Gate.SoundUnlessACallThrows` | ayq/ayq-desktop/src/ayq-gate.ts:21-60 | a run stays sound exactly when no such call throws |
| `Gate.AyqGate.SharedStretch` | ayq/ayq-desktop/src/ayq-gate.ts:27-33 | the stretch of `shared` up to its body, on the fields themselves |
| `Gate.AyqGate.SharedEnd` | ayq/ayq-desktop/src/ayq-gate.ts:34-39 | its `finally`, waking all who sleep when the count is nought |
| `Gate.AyqGate.ExclusiveStretch` | ayq/ayq-desktop/src/ayq-gate.ts:42-58 | the stretch of `exclusive`, the gate taken after its work has been called |
| `Gate.AyqGate.ExclusiveWake` | ayq/ayq-desktop/src/ayq-gate.ts:48-51 | the sleeper goes on |
| `Gate.AyqGate.ExclusiveEnd` | ayq/ayq-desktop/src/ayq-gate.ts:52-54 | its `finally` |
| `Opening.EveryRunIsSound` | ayq/ayq-desktop/src/ayq-engine.ts:222-241 | openings in flight and the variable that joins them agree through every interleaving |
| `Opening.OneOpenAtATime` | ayq/ayq-desktop/src/ayq-engine.ts:208-241 | at most one open is in flight, and everybody waits for that one |
| `Opening.AFailureCanBeTriedAgain` | ayq/ayq-desktop/src/ayq-engine.ts:228-238 | after a failed open, whatever happens first, it can be cleared, and the next request then opens anew |
| `BackupSets.CheckEachFile` | ayq/ayq-desktop/src/ayq-backup.ts:514-535 | the loop over a set's files |
| `BackupSets.CheckMeansDescribed` | ayq/ayq-desktop/src/ayq-backup.ts:507-535 | files pass exactly when the description is of them, all of them and nothing else |
| `BackupSets.CheckedIsAsListed` | ayq/ayq-desktop/src/ayq-backup.ts:514-535 | files pass exactly when each is there, as long as listed and hashed as listed, and no other is |
| `BackupSets.ChecksOutExactly` | ayq/ayq-desktop/src/ayq-backup.ts:537-601 | a set passes exactly when it is there, its manifest reads in the one format, is its own, seals its moment and files, has a plain folder name and lists the store, the database and the metadata, and every file is as listed |
| `BackupSets.WhyItIsRefused` | ayq/ayq-desktop/src/ayq-backup.ts:537-601 | and which refusal it gets otherwise: exactly when unknown, unreadable, incomplete or, what is left, a mismatch |
| `BackupSets.NewerIsRefusedFirst` | ayq/ayq-desktop/src/ayq-backup.ts:566-568 | a set of a later format is refused as that, whatever else is wrong with it |
| `BackupSets.FilesAreSealed` | ayq/ayq-desktop/src/ayq-backup.ts:507-535 | a description admits one set of files |
| `BackupSets.CapturedChecksOut` | ayq/ayq-desktop/src/ayq-backup.ts:537-601 | a captured set passes exactly when the budget's files and the store were there and the folder has a plain name |
| `BackupSets.HalvesAreSealed` | ayq/ayq-desktop/src/ayq-backup.ts:149-167 | a set that passes under a captured set's digest has its id, moment and every file |
| `BackupSets.FolderIsNotSealed` | ayq/ayq-desktop/src/ayq-backup.ts:579-601 | but it passes under any plain folder name, the working folder's among them |
| `BackupSets.OnlyTheOldestAutomaticGo` | ayq/ayq-desktop/src/ayq-backup.ts:386-397 | pruning takes only automatic backups, leaves the newest ten, and takes none newer than one it leaves |
| `BackupSets.OnlyAutomaticOnesGo` | ayq/ayq-desktop/src/ayq-backup.ts:386-397 | a set captured by hand or before a restore is in the surplus of no listing |
| `BackupSets.TheNewestStays` | ayq/ayq-desktop/src/ayq-backup.ts:386-397 | nor is the newest of all |
| `Restore.Disk.Prune` | ayq/ayq-desktop/src/ayq-backup.ts:386-397 | removing the surplus, an entry at a time: done, exactly those backups are gone; cut short or failing, no other is touched |
| `Restore.Disk.Capture` | ayq/ayq-desktop/src/ayq-backup.ts:308-384 | a finished capture is a set sealed over its copies, of the moment and for the reason given, which on a faithful disk are the live budget and store; interrupted or failed it has changed no backup, and failed it is taken away; a step a file and five more |
| `Restore.Disk.CreateBackup` | ayq/ayq-desktop/src/ayq-backup.ts:253-306 | made, it is a set of the moment and the reason given; what is gone then is what pruning takes after an automatic one, and nothing after any other; no backup but an automatic one is touched in any case |
| `Restore.Disk.Stage` | ayq/ayq-desktop/src/ayq-backup.ts:702-712 | copying beside the data changes nothing live, whatever has landed; on a faithful disk the set has; two steps a file, and cut short at any, as many files are begun as that makes |
| `Restore.Disk.MoveIn` | ayq/ayq-desktop/src/ayq-backup.ts:732-748 | after each rename a recovery leads back to the old pair, unless the set's folder bears the working folder's name; onto the store's name the last one fails; what has moved is in one place and not in two |
| `Restore.Disk.Replace` | ayq/ayq-desktop/src/ayq-backup.ts:681-749 | a checked set is in place, to the byte, with the old pair aside; or there is a reason, a conflict exactly when anything but the live budget stands under the set's folder name, and a recovery leads back unless that is the working folder's |
| `Restore.Disk.Finish` | ayq/ayq-desktop/src/ayq-backup.ts:751-759 | before the complete journal a recovery leads back, from it on to what is live; it is written with the first step there is power for |
| `Restore.Disk.RollBackBudget` | ayq/ayq-desktop/src/ayq-backup.ts:801-812 | putting the budget back, half-finished removals included; a folder of the working folder's name takes the previous budget with it |
| `Restore.Disk.RollBackStore` | ayq/ayq-desktop/src/ayq-backup.ts:813-819 | putting the store back, or taking away one that was not there |
| `Restore.Disk.Recover` | ayq/ayq-desktop/src/ayq-backup.ts:777-823 | finished or cut short anywhere, it is bound for the same state; finished, it is that state and nothing is left to do |
| `Restore.Disk.RecoverThrough` | ayq/ayq-desktop/src/ayq-backup.ts:761-776 | cut short any number of times and then let finish, it reaches what one whole recovery does |
| `Restore.Disk.RestoreBackup` | ayq/ayq-desktop/src/ayq-engine.ts:485-553 | a restore that answers leaves the old pair, or what the opening made of the set's own files in the live folder's place, the latter exactly when it says restored; every other answer has its reason, and the safety backup is of the very folder that gave way, made that moment and marked as made before a restore |
| `Restore.Disk.AnOrdinaryRestoreRestores` | ayq/ayq-desktop/src/ayq-engine.ts:485-553 | on a faithful disk that stays on, a set that checks out is refused exactly when something stands in its way, fails under the store's name, and otherwise is restored if it opens; else all is as it was |
| `Restore.Disk.ThatNameLosesThePair` | ayq/ayq-desktop/src/ayq-backup.ts:800-812 | a set whose folder bears the working folder's name: the live budget and store are lost, and the safety backup is of just that pair |
| `Restore.Disk.RestoreSurvivesEverything` | ayq/ayq-desktop/src/ayq-backup.ts:670-823 | cut at any step, with recoveries cut too: the old pair, or what the opening made of the set's files, never mixed, the latter exactly when the complete journal was written, for every set but one of that name; no backup is lost |
| `Restore.OneWayBack` | ayq/ayq-desktop/src/ayq-backup.ts:761-823 | there is one state a recovery can lead to |
| `Aliases.AliasStore.RememberAlias` | ayq/ayq-desktop/src/ayq-aliases.ts:305-375 | remembering, on the store's fields: settled target, repointed aliases, carried name, moved rule |
| `Aliases.AliasStore.CarryNameOnMerge` | ayq/ayq-desktop/src/ayq-names.ts:112-124 | the target's name wins, else the variant's is carried |
| `Aliases.AliasStore.ForgetAlias` | ayq/ayq-desktop/src/ayq-aliases.ts:377-386 | one alias goes and is handed back |
| `Aliases.AliasStore.RememberRule` | ayq/ayq-desktop/src/ayq-rules.ts:50-70 | the counterparty files by the new rule and has no other; every other rule and filing is as it was |
| `Aliases.AliasStore.ForgetRule` | ayq/ayq-desktop/src/ayq-rules.ts:72-80 | its counterparty files nowhere afterwards; every other rule and filing is as it was |
| `Aliases.EveryHistoryStaysFlat` | ayq/ayq-desktop/src/ayq-aliases.ts:290-303 | over every sequence, variant keys are unique, no target is a variant, and no counterparty has two rules |
| `Aliases.OneLookupIsEnough` | ayq/ayq-desktop/src/ayq-aliases.ts:293-296 | following targets any number of times is one lookup: no chains, no cycles |
| `Aliases.CanonicalIsSettled` | ayq/ayq-desktop/src/ayq-aliases.ts:76-106 | the counterparty of a transaction is never itself a variant |
| `Aliases.RememberingRedirects` | ayq/ayq-desktop/src/ayq-aliases.ts:305-350 | remembering v as c moves v, and whatever belonged to v, to where c ends up, and nothing else |
| `Aliases.WhatRememberingLeaves` | ayq/ayq-desktop/src/ayq-aliases.ts:305-358 | refused exactly when the variant would come to belong to itself; else the table is the new alias and the others, those that belonged to the variant now with where it does, name and all |
| `Aliases.RulesFollow` | ayq/ayq-desktop/src/ayq-aliases.ts:298-370 | the variant's rule moves if the target has none, the target's wins, none is left on the variant, others stand |
| `Aliases.NamesAreCarried` | ayq/ayq-desktop/src/ayq-names.ts:99-124 | no name is lost or altered, and the target has one if the variant had |
| `Aliases.ForgettingUndoes` | ayq/ayq-desktop/src/ayq-aliases.ts:377-386 | forgetting what was just remembered gives every old answer back exactly when no alias mentioned the variant |
| `Aliases.RulesDoNotComeBack` | ayq/ayq-desktop/src/ayq-aliases.ts:360-370 | but leaves the rules as before exactly when the variant had none |
| `Aliases.CarriedNamesStay` | ayq/ayq-desktop/src/ayq-names.ts:107-124 | and the names as before exactly when the target had one or the variant had none |
| `Anchors.AnchoredBudget.ActiveAnchor` | ayq/ayq-desktop/src/ayq-anchors.ts:74-91 | the loop over the history in decision order |
| `Anchors.TheOneThatStands` | ayq/ayq-desktop/src/ayq-anchors.ts:57-91 | it answers the one decision with none after it that is a person's or reaches further, and that reached further than what it displaced |
| `Anchors.StatedStands` | ayq/ayq-desktop/src/ayq-anchors.ts:64-71 | a stated balance stands exactly when nothing later by the clock overrides it |
| `Anchors.ReachingNoFurtherKeeps` | ayq/ayq-desktop/src/ayq-anchors.ts:67-71 | a bank figure that reaches no further leaves the standing anchor, exactly unless it comes in first for the same day |
| `Anchors.OlderStatementsKeep` | ayq/ayq-desktop/src/ayq-camt-import.ts:416-442 | older statements imported later do not displace the anchor that stands |
| `Anchors.AnchoredBudget.MovementsTo` | ayq/ayq-desktop/src/ayq-anchors.ts:184-197 | the sum of movements up to a day |
| `Anchors.AnchoredBudget.EarliestMovement` | ayq/ayq-desktop/src/ayq-anchors.ts:207-224 | the first day with a movement |
| `Anchors.AnchoredBudget.ApplyAnchor` | ayq/ayq-desktop/src/ayq-anchors.ts:238-287 | the row becomes the one the anchor asks for, written only if it was not |
| `Anchors.AnchoredBudget.ReapplyAnchor` | ayq/ayq-desktop/src/ayq-anchors.ts:289-308 | the standing anchor is kept; applied again, it writes nothing |
| `Anchors.AnchoredBudget.StateBalance` | ayq/ayq-desktop/src/ayq-engine.ts:689-715 | the figure is recorded, and the recorded figure is applied, whichever stands, with nothing in between |
| `Anchors.AnchoredBudget.ImportStatements` | ayq/ayq-desktop/src/ayq-camt-import.ts:405-451 | new anchors are added once, and the standing one re-applied, with one write at most, with nothing in between |
| `Anchors.KeptBalance` | ayq/ayq-desktop/src/ayq-anchors.ts:226-250 | a kept anchor is the balance on its day, from a row dated no later; on other days it is that and the movements between, and before the row nothing |
| `Anchors.LaterMovementsAskForNothing` | ayq/ayq-desktop/src/ayq-anchors.ts:289-298 | when every new movement is later than the anchor's day there is nothing to write |
| `Anchors.AnchoredBudget.ReconcileAt` | ayq/ayq-desktop/src/ayq-anchors.ts:335-358 | the earlier figure and every movement since, by the loop over the movements |
| `Anchors.MeasuredFromTheLatest` | ayq/ayq-desktop/src/ayq-anchors.ts:340-346 | what is measured from is the latest figure before that day, whoever stated it, and there is none exactly when nobody stated one |
| `Anchors.AccountedAgainstTheLedger` | ayq/ayq-desktop/src/ayq-anchors.ts:310-358 | what is accounted for differs from the kept anchor by what the earlier figure differs from the ledger's balance there, or from its technical row |
| `Anchors.ImportAgrees` | ayq/ayq-desktop/src/ayq-camt-import.ts:444-451 | after an import, every standing anchor is kept, whatever the clock said |
| `Anchors.WhatAnImportLeaves` | ayq/ayq-desktop/src/ayq-camt-import.ts:403-451 | every other account and every figure before stands; its own account has what it had and then what came in; what is added to the history is the bank's, of that account and moment |
| `Anchors.EachFigureIsRecordedOnce` | ayq/ayq-desktop/src/ayq-camt-import.ts:416-441 | a statement's figure is recorded once, unless the bank's very figure for that account and day is there, and no other figure's number changes |
| `Anchors.StatingAgrees` | ayq/ayq-desktop/src/ayq-engine.ts:689-715 | after a stated balance, exactly when it stands or what stands asks for the same row |
| `Anchors.WhatAStatedBalanceLeaves` | ayq/ayq-desktop/src/ayq-engine.ts:689-715 | the history has it at its end and nothing moves but its account's row, which begins on the first day with a movement, if that is sooner, and holds what the movements leave open |
| `Anchors.EveryRunAgrees` | ayq/ayq-desktop/src/ayq-anchors.ts:226-308 | over every run of imports and balances stated in order, one after another, every standing anchor is kept |
| `Anchors.HistoryOnlyGrows` | ayq/ayq-desktop/src/ayq-anchors.ts:103-131 | over every run of operations one after another no stated figure is rewritten or lost; the history only grows at its end |
| `Anchors.AClockGoneBackDisagrees` | ayq/ayq-desktop/src/ayq-engine.ts:698-708 | stated with an earlier clock than a bank figure, a balance is applied and does not stand |
| `Anchors.ImportingAgainIsNothing` | ayq/ayq-desktop/src/ayq-camt-import.ts:428-431 | the same statements again change nothing |
| `LedgerOverlap.EveryRunIsSound` | ayq/ayq-desktop/src/ayq-anchors.ts:238-262 | over every interleaving technical rows are only added, or corrected in place, and none is dated after its anchor's day |
| `LedgerOverlap.BalancesAgree` | ayq/ayq-desktop/src/ayq-anchors.ts:135-155 | the ledger with any number of rows reads the balance the account with one does |
| `LedgerOverlap.OffBy` | ayq/ayq-desktop/src/ayq-anchors.ts:238-262 | what the balance is off by once an apply has written: what moved since it measured, the rows beside its own, and what became of a row it left alone |
| `LedgerOverlap.OffByWhatCameBetween` | ayq/ayq-desktop/src/ayq-anchors.ts:238-262 | the same over every interleaving between measuring and writing, the first being just what landed in between up to that day |
| `LedgerOverlap.RightUnlessSomethingLands` | ayq/ayq-desktop/src/ayq-anchors.ts:226-250 | with no other apply writing in between and one row at most, one row is left, and the balance is that of the anchor plus what landed in between |
| `LedgerOverlap.UndisturbedIsApplied` | ayq/ayq-desktop/src/ayq-anchors.ts:238-262 | with nothing in between, the four stretches are the one step the other results speak of |
| `LedgerOverlap.UndisturbedIsOffByOtherRows` | ayq/ayq-desktop/src/ayq-anchors.ts:135-155 | of several rows only the earliest is corrected: even undisturbed the balance is off by the others |
| `LedgerOverlap.AnImportLandsInBetween` | ayq/ayq-desktop/src/ayq-anchors.ts:241-262 | movements that land while an apply awaits leave the balance off by them |
| `LedgerOverlap.TwoFirstBalancesMakeTwoRows` | ayq/ayq-desktop/src/ayq-anchors.ts:251-262 | two applies at once to an account that has no row each add one |
| `SeriesDetection.GroupPayments` | ayq/ayq-desktop/src/ayq-series.ts:95-110 | outgoings by counterparty and exact amount, in the order first met |
| `SeriesDetection.DetectOne` | ayq/ayq-desktop/src/ayq-series.ts:112-149 | one group judged |
| `SeriesDetection.DetectSeries` | ayq/ayq-desktop/src/ayq-series.ts:95-162 | all groups, most recent first |
| `SeriesDetection.DetectedExactly` | ayq/ayq-desktop/src/ayq-series.ts:8-16 | a group is a series exactly with three payments or more and one window for every interval between them |
| `SeriesLaws.DetectedWhenTheGapsFit` | ayq/ayq-desktop/src/ayq-series.ts:36-132 | told in days: three payments or more of one amount to one counterparty, and one cadence that fits every gap, weekly 5 to 9 days, fortnightly 12 to 17, monthly 24 to 38, quarterly 80 to 100, half-yearly 170 to 195, yearly 350 to 380 |
| `SeriesLaws.WhatASeriesSays` | ayq/ayq-desktop/src/ayq-series.ts:121-149 | how often, first and last, by what name, and the first mandate there is |
| `SeriesLaws.FreshestFirst` | ayq/ayq-desktop/src/ayq-series.ts:151-159 | what was paid last comes first, and of those paid last on one day what was paid more often |
| `SeriesDetection.DetectedIsExact` | ayq/ayq-desktop/src/ayq-series.ts:121-149 | its amount, count, first and last dates are the payments' own, and the next date is the median of the intervals on, and so within the window |
| `SeriesDetection.MedianIsTheMiddle` | ayq/ayq-desktop/src/ayq-series.ts:79-84 | the median is the middle value by rank, or halfway between the two middle ones, a half rounded up |
| `SeriesDetection.MedianOfAnyOrder` | ayq/ayq-desktop/src/ayq-series.ts:79-84 | and does not depend on the order of the intervals |
| `SeriesDetection.DetectedSpansAll` | ayq/ayq-desktop/src/ayq-series.ts:117-149 | none of its payments is outside its first and last dates |
| `SeriesDetection.CadenceIsUnique` | ayq/ayq-desktop/src/ayq-series.ts:36-48 | no other cadence has a window for any of its intervals |
| `SeriesDetection.DetectedIsLocal` | ayq/ayq-desktop/src/ayq-series.ts:97-110 | a series depends only on the payments of its counterparty and amount |
| `SeriesDetection.OthersDoNotMatter` | ayq/ayq-desktop/src/ayq-series.ts:28-31 | payments of another counterparty or amount, wherever they come, change nothing |
| `SeriesDetection.OneSeriesPerAmount` | ayq/ayq-desktop/src/ayq-series.ts:86-92 | one series a counterparty and amount |
| `SeriesDetection.EachIsListedOnce` | ayq/ayq-desktop/src/ayq-series.ts:86-92 | listed once |
| `SeriesDetection.AnyOrderWillDo` | ayq/ayq-desktop/src/ayq-series.ts:95-162 | the order payments are read in does not change what is detected |
| `SeriesDetection.Plan.RetireInvalidSuggestions` | ayq/ayq-desktop/src/ayq-plan.ts:552-576 | offers that no longer hold are retired, in place |
| `SeriesDetection.Plan.SuggestFromSeries` | ayq/ayq-desktop/src/ayq-plan.ts:437-490 | an offer for each series not known, at the end |
| `SeriesDetection.Plan.Suggest` | ayq/ayq-desktop/src/ayq-plan.ts:796-806 | a pass: the one, then the other |
| `SeriesDetection.PassKeeps` | ayq/ayq-desktop/src/ayq-plan.ts:540-551 | manual, confirmed and dismissed records come through untouched; an offer changes only its state |
| `SeriesDetection.OffersAreAdded` | ayq/ayq-desktop/src/ayq-plan.ts:437-490 | what is added is offers, for exactly the series of which no record has the counterparty and amount |
| `SeriesLaws.WithdrawnWhenUnsupported` | ayq/ayq-desktop/src/ayq-plan.ts:552-576 | a pass changes a record exactly when it is a detected suggestion no series has the counterparty, amount and cadence of, and then withdraws it |
| `SeriesLaws.WhatAPassOffers` | ayq/ayq-desktop/src/ayq-plan.ts:437-490 | what it adds are offers of series no record had the counterparty and amount of, from the next date expected and suggested today, and no series is left without a record |
| `SeriesDetection.SuggestingAgainIsNothing` | ayq/ayq-desktop/src/ayq-plan.ts:426-490 | a second pass on the same history retires nothing and adds nothing |
| `SeriesDetection.AKnownIdentityIsNeverOffered` | ayq/ayq-desktop/src/ayq-plan.ts:445-456 | once a record has a counterparty and amount, no later pass over any history offers it again |
| `SeriesDetection.WithdrawnIsNotReplaced` | ayq/ayq-desktop/src/ayq-plan.ts:796-806 | an offer a pass withdraws is not replaced by another rhythm of its counterparty and amount, in any plan, by that pass or a later one |

## Left out

Assumed of what surrounds the model:

- Recovery finishes before anything else writes, as the engine has it first at
  start (`ayq-engine.ts`, lines 556-586).
- Calls of a recovery and of finishing a restore may be cut short but do not fail
  with the process alive. Those of a capture and of a replace may fail too.
- No budget folder of Actual's bears a name of AYQ's own: the store's, the status
  file's, the backups' or the working folder's.
- Names are compared as they are written: a file system that folds case would let
  more names than one stand for the working folder.
- A hash is injective, file contents are opaque bytes, and an atomic write leaves
  the old file or the new one; the temporary file it goes through is not shown.
- Transaction ids are distinct and not empty, and records have distinct ids.
- Dates are real dates from the year 0000, and written years have four digits;
  text that does not parse as a date is not modelled, nor what `Date` throws for
  days out of its own range.
- Comparators that never answer nought are modelled as stable sorts of the order
  they mean. The tie between two backups made at one instant, and the last tie of
  a forecast's events, are left to that.

Not modelled:

- Actual itself: its queries, its file formats, payees, and the polling that waits
  for a write to land. An account is its movements and at most one technical row,
  or in `LedgerOverlap` any number of them.
- What a set's files say, as against what bytes they are: the store's JSON and
  version, the budget's metadata and database header, and the shape of ids, paths
  and folder names in a manifest. No refusal for these appears.
- What the status file says, product and build identity, the overview of backups,
  and when an automatic backup is due. A pruning that fails and one that is cut
  short get one answer here, an attempt left unfinished.
- The name-folding rules; a transaction's refolded key is given.
- Moving payees when an alias changes, and what rules and filing do to categories.
- The order `localeCompare` lists aliases and rules in.
- The plan sheet, and how a draft becomes a record. Saving a record and changing
  its state are steps of `Overlap`, told of in `PlanStates`, and an offer is there a
  record saved.
- What a category's removal or renaming does to rules and records.
- How a statement's balances are read into figures and days; an import is given
  the figures. Evidence boundaries and closing evidence.
- Reading a budget's history into payments; the detector is given them. Its
  strings of counterparty and amount are pairs here.
- A gate's body entering the gate again, and any order among those who wait.
- How long the turn between a failed open and its clearing is; whoever calls in it
  joins that same failure, as in the code.
- XML, ZIP and CAMT reading, the analytical contract, the interface, the command
  line and the hosting process.

Stated for less than every input, or of less than the code does:

- Calendar.TextOrderIsDayOrder: for four-digit years only; a fifth digit breaks
  the text order itself.
- Calendar.AddDaysIsExact: of the day counted to; what is printed of it outside
  four digits is a member of its own.
- Coverage.NormalFormIsUnique: for intervals that do not run backwards, which is
  all that evidence yields; a backwards interval has no days but keeps its place.
- Decisions.PlanStore.RunMatching: as one step; that the candidates are awaited
  between its reading and its writing is modelled in `Overlap`.
- DecisionLaws.RunHolds: of a run that nothing overlaps; what a late run leaves is
  `Overlap.ADecisionSurvivesARun`.
- DecisionLaws.RefusalStands: of operations one after another; over interleavings
  it is `Overlap.RefusalStandsUnlessWrittenOver`.
- Anchors.AnchoredBudget.StateBalance: as one step; that the ledger is awaited
  between recording and writing is modelled in `LedgerOverlap`.
- Anchors.AnchoredBudget.ImportStatements: as one step; that others come in between
  is modelled in `Overlap`, for the history, and in `LedgerOverlap`, for the ledger.
- Anchors.HistoryOnlyGrows: of operations one after another; over interleavings it
  is `Overlap.HistoryStandsUnlessWrittenOver` and `Overlap.EveryFigureWasStated`.
- Aliases.EveryHistoryStaysFlat: of operations one after another; over
  interleavings it is `Overlap.EveryInterleavingHolds`.
- SeriesDetection.Plan.RetireInvalidSuggestions: as one step; that the history is
  awaited between is modelled in `Overlap`.
- SeriesDetection.PassKeeps: of a pass that nothing overlaps; what a late one
  leaves is `Overlap.ARecordSurvivesAWithdrawal`.
- ForecastLaws.LastMonthClosesTheForecast: within six hundred months; the member
  above it in the table says what is missing beyond.
- ForecastLaws.PlanAndRecordsNeverCountTwice: for a plan with one row a month and
  category and amounts that are not negative, as the sheet and a saved plan are.
- Gate.EveryRunIsSound: for work that answers a promise when it is called; the
  exact condition is a member of its own.
- BackupSets.CapturedChecksOut: without the later checks of what the files say,
  the store's version, the budget's metadata and the database's header.
- Restore.Disk.RestoreSurvivesEverything: for sets whose folder does not bear the
  working folder's name; what happens to the others is a member of its own.
- Anchors.EveryRunAgrees: for balances stated when nothing later by the clock
  overrides them, and operations one after another; the exact conditions for one
  balance, and for one apply with others in between, are members of their own.
- LedgerOverlap.RightUnlessSomethingLands: for a ledger of one row at most and no
  other apply writing meanwhile; without either it is
  `LedgerOverlap.OffByWhatCameBetween`.
