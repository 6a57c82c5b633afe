/** Balance anchors: what an account holds, and how a statement or its owner says
    so (ayq-anchors.ts, and the import's and the engine's use of it). Days are
    day numbers, and a moment is an instant; an account's technical starting row
    is the only row that is not a movement. */
module Anchors {
  import opened Lists

  datatype Anchor = Anchor(accountId: string, amountCents: int, coverageDate: int, manual: bool, createdAt: int)

  /** A balance a statement states: the figure, and its day. */
  datatype Reading = Reading(amountCents: int, coverageDate: int)

  datatype Movement = Movement(date: int, amount: int)

  datatype Account = Account(movements: seq<Movement>, startingRow: Option<Movement>)

  datatype Budget = Budget(anchors: seq<Anchor>, accounts: map<string, Account>)

  // ------------------------------------------------- which anchor stands

  function Of(accountId: string): Anchor -> bool {
    (anchor: Anchor) => anchor.accountId == accountId
  }

  function Earlier(one: Anchor, other: Anchor): bool {
    one.createdAt < other.createdAt
  }

  /** The anchors of one account, in the order they were decided. */
  function History(anchors: seq<Anchor>, accountId: string): seq<Anchor> {
    Sort(Earlier, Filter(Of(accountId), anchors))
  }

  function Next(active: Option<Anchor>, anchor: Anchor): Option<Anchor> {
    if anchor.manual || active.None? || anchor.coverageDate > active.value.coverageDate then Some(anchor) else active
  }

  function Folded(history: seq<Anchor>): Option<Anchor> {
    if history == [] then None else Next(Folded(history[..|history| - 1]), history[|history| - 1])
  }

  function Active(anchors: seq<Anchor>, accountId: string): Option<Anchor> {
    Folded(History(anchors, accountId))
  }

  predicate NoManual(history: seq<Anchor>, from: int, to: int)
    requires 0 <= from && to <= |history|
  {
    forall k :: from <= k < to ==> !history[k].manual
  }

  /** A decision stands when nothing after it is a person's or reaches further,
      and it, unless it is a person's, reached further than everything back to
      the last that was. */
  ghost predicate StandsAt(history: seq<Anchor>, i: int)
    requires 0 <= i < |history|
  {
    && (forall j :: i < j < |history| ==> !history[j].manual && history[j].coverageDate <= history[i].coverageDate)
    && (!history[i].manual ==>
          forall j :: 0 <= j < i && NoManual(history, j + 1, i) ==> history[j].coverageDate < history[i].coverageDate)
  }

  lemma {:induction false} SomeoneStands(history: seq<Anchor>) returns (i: nat)
    requires history != []
    ensures i < |history| && Folded(history) == Some(history[i]) && StandsAt(history, i)
  {
    var last := |history| - 1;
    var before, anchor := history[..last], history[last];
    i := last;
    if !anchor.manual && Folded(before).Some? {
      i := SomeoneStands(before);
      assert before[i] == history[i];
      if anchor.coverageDate > before[i].coverageDate {
        ReachesPastAll(history, i);
        i := last;
      } else {
        StandsStill(history, i);
      }
    }
  }

  /** The fold answers the one decision that stands. */
  lemma TheOneThatStands(history: seq<Anchor>) returns (i: nat)
    requires history != []
    ensures i < |history| && Folded(history) == Some(history[i]) && StandsAt(history, i)
    ensures forall k :: 0 <= k < |history| && StandsAt(history, k) ==> k == i
  {
    i := SomeoneStands(history);
    forall k | 0 <= k < |history| && StandsAt(history, k) ensures k == i {
      OnlyOneStands(history, i, k);
    }
  }

  lemma StandsStill(history: seq<Anchor>, i: nat)
    requires history != [] && i < |history| - 1 && StandsAt(history[..|history| - 1], i)
    requires !history[|history| - 1].manual && history[|history| - 1].coverageDate <= history[i].coverageDate
    ensures StandsAt(history, i)
  {
    var before := history[..|history| - 1];
    forall j | i < j < |history| ensures !history[j].manual && history[j].coverageDate <= history[i].coverageDate {
      assert j < |before| ==> before[j] == history[j];
    }
    forall j | 0 <= j < i && NoManual(history, j + 1, i) && !history[i].manual
      ensures history[j].coverageDate < history[i].coverageDate
    {
      forall k | j < k < i ensures !before[k].manual {
        assert before[k] == history[k];
      }
      assert NoManual(before, j + 1, i);
      assert before[j] == history[j];
    }
  }

  lemma ReachesPastAll(history: seq<Anchor>, was: nat)
    requires history != [] && was < |history| - 1 && StandsAt(history[..|history| - 1], was)
    requires !history[|history| - 1].manual && history[was].coverageDate < history[|history| - 1].coverageDate
    ensures StandsAt(history, |history| - 1)
  {
    var last := |history| - 1;
    var before := history[..last];
    forall j | 0 <= j < last && NoManual(history, j + 1, last)
      ensures history[j].coverageDate < history[last].coverageDate
    {
      assert before[j] == history[j] && before[was] == history[was];
      if j < was {
        assert !history[was].manual;
        forall k | j < k < was ensures !before[k].manual {
          assert before[k] == history[k];
        }
        assert NoManual(before, j + 1, was);
      }
    }
  }

  lemma OnlyOneStands(history: seq<Anchor>, i: nat, k: nat)
    requires i < |history| && k < |history| && StandsAt(history, i) && StandsAt(history, k)
    ensures i == k
  {
    if i < k {
      assert NoManual(history, i + 1, k);
    } else if k < i {
      assert NoManual(history, k + 1, i);
    }
  }

  lemma StandingIsActive(history: seq<Anchor>, i: nat)
    requires i < |history| && StandsAt(history, i)
    ensures Folded(history) == Some(history[i])
  {
    var _ := TheOneThatStands(history);
  }

  /** Where a new decision comes in the history. */
  lemma Arrives(anchors: seq<Anchor>, x: Anchor) returns (p: nat)
    ensures var history := History(anchors, x.accountId);
      && p <= |history| && History(anchors + [x], x.accountId) == history[..p] + [x] + history[p..]
      && (forall j :: 0 <= j < |history| ==> (x.createdAt < history[j].createdAt <==> p <= j))
  {
    var mine := Filter(Of(x.accountId), anchors);
    var history := History(anchors, x.accountId);
    FilterConcat(Of(x.accountId), anchors, [x]);
    assert Filter(Of(x.accountId), [x]) == [x];
    SortOfArrival(Earlier, mine, x);
    SortIsOrdered(Earlier, mine);
    p := PlaceOf(Earlier, x, history);
    forall j | p <= j < |history| ensures x.createdAt < history[j].createdAt {
      assert Earlier(x, history[p]);
      assert p < j ==> !Earlier(history[j], history[p]);
    }
    forall j | 0 <= j < p ensures !(x.createdAt < history[j].createdAt) {
      assert !Earlier(x, history[j]);
    }
  }

  lemma HistoryMembers(anchors: seq<Anchor>, accountId: string, anchor: Anchor)
    ensures anchor in History(anchors, accountId) <==> anchor in anchors && anchor.accountId == accountId
  {
    SortMembers(Earlier, Filter(Of(accountId), anchors));
  }

  /** Nothing decided later, by the clock, is a person's or reaches further. */
  ghost predicate NothingLaterOverrides(anchors: seq<Anchor>, x: Anchor) {
    forall other :: (other in anchors && other.accountId == x.accountId && x.createdAt < other.createdAt)
                    ==> !other.manual && other.coverageDate <= x.coverageDate
  }

  /** A balance its owner states stands exactly when nothing decided later, by the
      clock, overrides it; a clock that only goes forward leaves nothing to. */
  lemma StatedStands(anchors: seq<Anchor>, x: Anchor)
    requires x.manual
    ensures Active(anchors + [x], x.accountId) == Some(x) <==> NothingLaterOverrides(anchors, x)
  {
    var history := History(anchors, x.accountId);
    var p := Arrives(anchors, x);
    var after := history[..p] + [x] + history[p..];
    assert forall j :: p < j < |after| ==> after[j] == history[j - 1];
    if NothingLaterOverrides(anchors, x) {
      forall j | p < j < |after| ensures !after[j].manual && after[j].coverageDate <= x.coverageDate {
        assert after[j] in history;
        HistoryMembers(anchors, x.accountId, after[j]);
      }
      StandingIsActive(after, p);
    } else {
      var other :| other in anchors && other.accountId == x.accountId && x.createdAt < other.createdAt
                   && !(!other.manual && other.coverageDate <= x.coverageDate);
      HistoryMembers(anchors, x.accountId, other);
      var k :| 0 <= k < |history| && history[k] == other;
      assert after[p] == x && after[k + 1] == other;
      var i := TheOneThatStands(after);
      assert i > p;
    }
  }

  /** A bank's figure that reaches no further leaves the one that stands, except
      that a clock gone backwards lets it in first: its day must then be the very
      day, neither may be a person's, and no person's may come in between. */
  ghost predicate ComesInFirst(anchors: seq<Anchor>, standing: Anchor, x: Anchor) {
    && !standing.manual && x.coverageDate == standing.coverageDate && x.createdAt < standing.createdAt
    && forall other :: other in anchors && other.accountId == x.accountId && other.manual ==> other.createdAt <= x.createdAt
  }

  lemma ReachingNoFurtherKeeps(anchors: seq<Anchor>, standing: Anchor, x: Anchor)
    requires Active(anchors, x.accountId) == Some(standing) && !x.manual && x.coverageDate <= standing.coverageDate
    ensures Active(anchors + [x], x.accountId) == Some(standing) <==> !ComesInFirst(anchors, standing, x)
  {
    var history := History(anchors, x.accountId);
    var p := Arrives(anchors, x);
    var i := TheOneThatStands(history);
    if ComesInFirst(anchors, standing, x) {
      ComingInFirst(anchors, x, history, p, i);
    } else {
      StayingOn(anchors, x, history, p, i);
    }
  }

  lemma ComingInFirst(anchors: seq<Anchor>, x: Anchor, history: seq<Anchor>, p: nat, i: nat)
    requires history == History(anchors, x.accountId) && p <= |history| && i < |history| && StandsAt(history, i)
    requires forall j :: 0 <= j < |history| ==> (x.createdAt < history[j].createdAt <==> p <= j)
    requires !x.manual && ComesInFirst(anchors, history[i], x)
    ensures Folded(history[..p] + [x] + history[p..]) == Some(x)
  {
    var after := history[..p] + [x] + history[p..];
    forall j | p <= j < |history| ensures !history[j].manual && history[j].coverageDate <= x.coverageDate {
      assert history[j] in history;
      HistoryMembers(anchors, x.accountId, history[j]);
      if j < i {
        forall k | j < k < i ensures !history[k].manual {
          assert history[k] in history;
          HistoryMembers(anchors, x.accountId, history[k]);
        }
        assert NoManual(history, j + 1, i);
      }
    }
    assert forall j :: p < j < |after| ==> after[j] == history[j - 1];
    forall j | 0 <= j < p && NoManual(after, j + 1, p) ensures after[j].coverageDate < x.coverageDate {
      forall k | j < k < i ensures !history[k].manual {
        assert k < p ==> after[k] == history[k];
      }
      assert NoManual(history, j + 1, i);
    }
    assert after[p] == x;
    StandingIsActive(after, p);
  }

  lemma StayingOn(anchors: seq<Anchor>, x: Anchor, history: seq<Anchor>, p: nat, i: nat)
    requires history == History(anchors, x.accountId) && p <= |history| && i < |history| && StandsAt(history, i)
    requires forall j :: 0 <= j < |history| ==> (x.createdAt < history[j].createdAt <==> p <= j)
    requires !x.manual && x.coverageDate <= history[i].coverageDate && !ComesInFirst(anchors, history[i], x)
    ensures Folded(history[..p] + [x] + history[p..]) == Some(history[i])
  {
    var after := history[..p] + [x] + history[p..];
    var at := if i < p then i else i + 1;
    forall j | 0 <= j < at && NoManual(after, j + 1, at) && !history[i].manual
      ensures after[j].coverageDate < history[i].coverageDate
    {
      StayingAhead(anchors, x, history, p, i, after, j);
    }
    forall j | at < j < |after| ensures !after[j].manual && after[j].coverageDate <= history[i].coverageDate {
      assert after[j] == if j < p then history[j] else if j == p then x else history[j - 1];
    }
    assert after[at] == history[i];
    StandingIsActive(after, at);
  }

  lemma StayingAhead(anchors: seq<Anchor>, x: Anchor, history: seq<Anchor>, p: nat, i: nat, after: seq<Anchor>, j: nat)
    requires history == History(anchors, x.accountId) && p <= |history| && i < |history| && StandsAt(history, i)
    requires forall j :: 0 <= j < |history| ==> (x.createdAt < history[j].createdAt <==> p <= j)
    requires after == history[..p] + [x] + history[p..] && !history[i].manual
    requires var at := if i < p then i else i + 1; j < at && NoManual(after, j + 1, at)
    requires !x.manual && x.coverageDate <= history[i].coverageDate && !ComesInFirst(anchors, history[i], x)
    ensures after[j].coverageDate < history[i].coverageDate
  {
    if j == p {
      StayingFurther(anchors, x, history, p, i, after);
    } else {
      StillAhead(history, x, p, i, after, j);
    }
  }

  lemma StillAhead(history: seq<Anchor>, x: Anchor, p: nat, i: nat, after: seq<Anchor>, j: nat)
    requires p <= |history| && i < |history| && StandsAt(history, i) && !history[i].manual
    requires after == history[..p] + [x] + history[p..] && j != p
    requires var at := if i < p then i else i + 1; j < at && NoManual(after, j + 1, at)
    ensures after[j].coverageDate < history[i].coverageDate
  {
    var was := if j < p then j else j - 1;
    forall k | was < k < i ensures !history[k].manual {
      assert history[k] == after[if k < p then k else k + 1];
    }
    assert NoManual(history, was + 1, i);
    assert after[j] == history[was];
  }

  lemma StayingFurther(anchors: seq<Anchor>, x: Anchor, history: seq<Anchor>, p: nat, i: nat, after: seq<Anchor>)
    requires history == History(anchors, x.accountId) && p <= i < |history| && StandsAt(history, i)
    requires forall j :: 0 <= j < |history| ==> (x.createdAt < history[j].createdAt <==> p <= j)
    requires |after| == |history| + 1 && forall j :: p < j < |after| ==> after[j] == history[j - 1]
    requires NoManual(after, p + 1, i + 1) && !history[i].manual
    requires !x.manual && x.coverageDate <= history[i].coverageDate && !ComesInFirst(anchors, history[i], x)
    ensures x.coverageDate < history[i].coverageDate
  {
    forall other | other in anchors && other.accountId == x.accountId && other.manual
      ensures other.createdAt <= x.createdAt
    {
      HistoryMembers(anchors, x.accountId, other);
      var k :| 0 <= k < |history| && history[k] == other;
      assert p <= k ==> after[k + 1].manual;
    }
  }

  // ------------------------------------------------------- the arithmetic

  function To(day: int): Movement -> int {
    (movement: Movement) => if movement.date <= day then movement.amount else 0
  }

  function Between(after: int, to: int): Movement -> int {
    (movement: Movement) => if after < movement.date <= to then movement.amount else 0
  }

  function MovedTo(movements: seq<Movement>, day: int): int {
    SumOver(To(day), movements)
  }

  function MovedBetween(movements: seq<Movement>, after: int, to: int): int {
    SumOver(Between(after, to), movements)
  }

  function Earliest(movements: seq<Movement>): Option<int> {
    if movements == [] then None
    else
      var earlier, date := Earliest(movements[..|movements| - 1]), movements[|movements| - 1].date;
      if earlier.None? || date < earlier.value then Some(date) else earlier
  }

  /** What the budget answers for an account's balance on a day. */
  function BalanceOn(account: Account, day: int): int {
    MovedTo(account.movements, day)
    + if account.startingRow.Some? then To(day)(account.startingRow.value) else 0
  }

  /** The row an anchor asks for. */
  function TechnicalRow(movements: seq<Movement>, anchor: Anchor): Movement {
    var earliest := Earliest(movements);
    Movement(
      if earliest.Some? && earliest.value < anchor.coverageDate then earliest.value else anchor.coverageDate,
      anchor.amountCents - MovedTo(movements, anchor.coverageDate))
  }

  /** The ledger keeps an anchor: its technical row is the one the anchor asks for. */
  predicate Keeps(account: Account, anchor: Anchor) {
    account.startingRow == Some(TechnicalRow(account.movements, anchor))
  }

  /** A kept anchor is the balance on its day, from a row dated no later. From
      then on the balance is that figure and the movements since, and nothing
      else; before it, back to the row, that figure less the movements to come;
      and before the row there is nothing. */
  lemma KeptBalance(account: Account, anchor: Anchor, day: int)
    requires Keeps(account, anchor)
    ensures account.startingRow.value.date <= anchor.coverageDate
    ensures BalanceOn(account, anchor.coverageDate) == anchor.amountCents
    ensures anchor.coverageDate <= day ==>
      BalanceOn(account, day) == anchor.amountCents + MovedBetween(account.movements, anchor.coverageDate, day)
    ensures account.startingRow.value.date <= day <= anchor.coverageDate ==>
      BalanceOn(account, day) == anchor.amountCents - MovedBetween(account.movements, day, anchor.coverageDate)
    ensures day < account.startingRow.value.date ==> MovedTo(account.movements, day) == 0 && BalanceOn(account, day) == 0
  {
    if anchor.coverageDate <= day {
      BetweenIsTheRest(account.movements, anchor.coverageDate, day);
    } else {
      BetweenIsTheRest(account.movements, day, anchor.coverageDate);
    }
    if day < account.startingRow.value.date {
      forall movement | movement in account.movements ensures To(day)(movement) == 0 {
        NoneIsEarlier(account.movements, movement);
      }
      SumOfNought(To(day), account.movements);
    }
  }

  lemma {:induction false} BetweenIsTheRest(movements: seq<Movement>, after: int, to: int)
    requires after <= to
    ensures MovedTo(movements, to) == MovedTo(movements, after) + MovedBetween(movements, after, to)
  {
    if movements != [] {
      BetweenIsTheRest(movements[..|movements| - 1], after, to);
    }
  }

  /** Before the row there is nothing: no movement of a kept account is earlier
      than its technical row, unless the anchor is. */
  lemma {:induction false} NoneIsEarlier(movements: seq<Movement>, movement: Movement)
    requires movement in movements
    ensures Earliest(movements).Some? && Earliest(movements).value <= movement.date
  {
    var rest := movements[..|movements| - 1];
    if movement != movements[|movements| - 1] {
      assert movement in rest;
      NoneIsEarlier(rest, movement);
    }
  }

  // ------------------------------------------ what the movements account for

  function Before(accountId: string, closingDate: int): Anchor -> bool {
    (anchor: Anchor) => anchor.accountId == accountId && anchor.coverageDate < closingDate
  }

  function ByDate(one: Anchor, other: Anchor): bool {
    one.coverageDate < other.coverageDate
  }

  /** The last of the earlier anchors, by the day they are true on. */
  function EarlierAnchor(anchors: seq<Anchor>, accountId: string, closingDate: int): Option<Anchor> {
    var earlier := Sort(ByDate, Filter(Before(accountId, closingDate), anchors));
    if earlier == [] then None else Some(earlier[|earlier| - 1])
  }

  datatype Accounted = Accounted(accountedCents: int, fromDate: int)

  function AccountedFor(anchors: seq<Anchor>, accountId: string, movements: seq<Movement>, closingDate: int): Option<Accounted> {
    var earlier := EarlierAnchor(anchors, accountId, closingDate);
    if earlier.None? then None
    else Some(Accounted(earlier.value.amountCents + MovedBetween(movements, earlier.value.coverageDate, closingDate),
                        earlier.value.coverageDate))
  }

  /** What is measured from is the latest figure before that day, whoever stated
      it, and there is nothing to say exactly when nobody stated one. */
  lemma MeasuredFromTheLatest(anchors: seq<Anchor>, accountId: string, closingDate: int)
    ensures var earlier := EarlierAnchor(anchors, accountId, closingDate);
      && (earlier.None? <==> forall one :: one in anchors && one.accountId == accountId ==> closingDate <= one.coverageDate)
      && (earlier.Some? ==>
            && earlier.value in anchors && earlier.value.accountId == accountId && earlier.value.coverageDate < closingDate
            && forall one :: one in anchors && one.accountId == accountId && one.coverageDate < closingDate
                             ==> one.coverageDate <= earlier.value.coverageDate)
  {
    var mine := Filter(Before(accountId, closingDate), anchors);
    var sorted := Sort(ByDate, mine);
    SortMembers(ByDate, mine);
    SortIsOrdered(ByDate, mine);
    if sorted != [] {
      var last := sorted[|sorted| - 1];
      assert last in sorted;
      forall one | one in sorted ensures one.coverageDate <= last.coverageDate {
        var i :| 0 <= i < |sorted| && sorted[i] == one;
        assert i < |sorted| - 1 ==> !ByDate(last, sorted[i]);
      }
    }
  }

  /** What the movements account for on the day of the anchor that is kept differs
      from it by what the earlier figure differs from what the ledger begins with
      or says there. */
  lemma AccountedAgainstTheLedger(account: Account, anchors: seq<Anchor>, active: Anchor)
    requires Keeps(account, active)
    ensures var accounted := AccountedFor(anchors, active.accountId, account.movements, active.coverageDate);
      var earlier := EarlierAnchor(anchors, active.accountId, active.coverageDate);
      && (accounted.Some? <==> earlier.Some?)
      && (accounted.Some? ==>
            accounted.value.accountedCents - active.amountCents
            == earlier.value.amountCents
               - if account.startingRow.value.date <= earlier.value.coverageDate then BalanceOn(account, earlier.value.coverageDate)
                 else account.startingRow.value.amount)
  {
    MeasuredFromTheLatest(anchors, active.accountId, active.coverageDate);
    var earlier := EarlierAnchor(anchors, active.accountId, active.coverageDate);
    if earlier.Some? {
      KeptBalance(account, active, earlier.value.coverageDate);
      BetweenIsTheRest(account.movements, earlier.value.coverageDate, active.coverageDate);
    }
  }

  lemma {:induction false} LaterAddsNothing(movements: seq<Movement>, added: seq<Movement>, day: int)
    requires forall movement :: movement in added ==> day < movement.date
    ensures MovedTo(movements + added, day) == MovedTo(movements, day)
    ensures var before, after := Earliest(movements), Earliest(movements + added);
      (before.Some? && before.value < day <==> after.Some? && after.value < day)
      && (before.Some? && before.value < day ==> after == before)
  {
    if added == [] {
      assert movements + added == movements;
    } else {
      var rest, last := added[..|added| - 1], added[|added| - 1];
      assert last in added;
      LaterAddsNothing(movements, rest, day);
      assert (movements + added)[..|movements + added| - 1] == movements + rest;
    }
  }

  /** Movements that are all later than the anchor leave the row it asks for. */
  lemma LaterMovementsAskForNothing(account: Account, added: seq<Movement>, anchor: Anchor)
    requires Keeps(account, anchor)
    requires forall movement :: movement in added ==> anchor.coverageDate < movement.date
    ensures Keeps(account.(movements := account.movements + added), anchor)
  {
    LaterAddsNothing(account.movements, added, anchor.coverageDate);
  }

  // ------------------------------------------------------- the operations

  function Applied(budget: Budget, anchor: Anchor): Budget
    requires anchor.accountId in budget.accounts
  {
    var account := budget.accounts[anchor.accountId];
    budget.(accounts := budget.accounts[
              anchor.accountId := account.(startingRow := Some(TechnicalRow(account.movements, anchor)))])
  }

  function Reapplied(budget: Budget, accountId: string): Budget
    requires accountId in budget.accounts
  {
    var active := Active(budget.anchors, accountId);
    if active.None? then budget
    else
      ActiveIsMine(budget.anchors, accountId);
      Applied(budget, active.value)
  }

  lemma {:induction false} FoldedIsOne(history: seq<Anchor>)
    ensures Folded(history).Some? ==> Folded(history).value in history
    ensures history != [] ==> Folded(history).Some?
  {
    if history != [] {
      FoldedIsOne(history[..|history| - 1]);
    }
  }

  lemma ActiveIsMine(anchors: seq<Anchor>, accountId: string)
    ensures var active := Active(anchors, accountId);
      active.Some? ==> active.value in anchors && active.value.accountId == accountId
  {
    FoldedIsOne(History(anchors, accountId));
    var active := Active(anchors, accountId);
    if active.Some? {
      HistoryMembers(anchors, accountId, active.value);
    }
  }

  predicate Already(anchors: seq<Anchor>, accountId: string, stated: Reading) {
    exists one :: one in anchors && one.accountId == accountId && !one.manual
                    && one.coverageDate == stated.coverageDate && one.amountCents == stated.amountCents
  }

  function BankAnchor(accountId: string, stated: Reading, readAt: int): Anchor {
    Anchor(accountId, stated.amountCents, stated.coverageDate, false, readAt)
  }

  function WithStated(anchors: seq<Anchor>, accountId: string, stated: seq<Reading>, readAt: int): seq<Anchor>
    decreases |stated|
  {
    if stated == [] then anchors
    else
      WithStated(
        if Already(anchors, accountId, stated[0]) then anchors else anchors + [BankAnchor(accountId, stated[0], readAt)],
        accountId, stated[1..], readAt)
  }

  /** One import: the account it is for, the opening row should the account be
      new, what it added, and the balances its statements state. */
  datatype Import = Import(accountId: string, openingRow: Option<Movement>, added: seq<Movement>, stated: seq<Reading>, readAt: int)

  function Landed(accounts: map<string, Account>, one: Import): Account {
    if one.accountId in accounts
    then accounts[one.accountId].(movements := accounts[one.accountId].movements + one.added)
    else Account(one.added, one.openingRow)
  }

  function Imported(budget: Budget, one: Import): Budget {
    Reapplied(
      Budget(WithStated(budget.anchors, one.accountId, one.stated, one.readAt),
             budget.accounts[one.accountId := Landed(budget.accounts, one)]),
      one.accountId)
  }

  function StatedBalance(budget: Budget, anchor: Anchor): Budget
    requires anchor.accountId in budget.accounts
  {
    Applied(budget.(anchors := budget.anchors + [anchor]), anchor)
  }

  class AnchoredBudget {
    var anchors: seq<Anchor>
    var accounts: map<string, Account>
    /** How often the ledger has been written by an anchor. */
    ghost var writes: nat

    constructor ()
      ensures Contents() == Budget([], map[])
    {
      anchors, accounts, writes := [], map[], 0;
    }

    function Contents(): Budget
      reads this`anchors, this`accounts
    {
      Budget(anchors, accounts)
    }

    method ActiveAnchor(accountId: string) returns (active: Option<Anchor>)
      ensures active == Active(anchors, accountId)
    {
      var mine := Sort(Earlier, Filter(Of(accountId), anchors));
      active := None;
      for i := 0 to |mine|
        invariant active == Folded(mine[..i])
      {
        var anchor := mine[i];
        assert mine[..i + 1][..i] == mine[..i];
        if anchor.manual {
          active := Some(anchor);
        } else if active.None? || anchor.coverageDate > active.value.coverageDate {
          active := Some(anchor);
        }
      }
      assert mine[..|mine|] == mine;
    }

    method MovementsTo(accountId: string, day: int) returns (moved: int)
      requires accountId in accounts
      ensures moved == MovedTo(accounts[accountId].movements, day)
    {
      var movements := accounts[accountId].movements;
      moved := 0;
      for i := 0 to |movements|
        invariant moved == MovedTo(movements[..i], day)
      {
        assert movements[..i + 1][..i] == movements[..i];
        if movements[i].date <= day {
          moved := moved + movements[i].amount;
        }
      }
      assert movements[..|movements|] == movements;
    }

    method EarliestMovement(accountId: string) returns (earliest: Option<int>)
      requires accountId in accounts
      ensures earliest == Earliest(accounts[accountId].movements)
    {
      var movements := accounts[accountId].movements;
      earliest := None;
      for i := 0 to |movements|
        invariant earliest == Earliest(movements[..i])
      {
        assert movements[..i + 1][..i] == movements[..i];
        if earliest.None? || movements[i].date < earliest.value {
          earliest := Some(movements[i].date);
        }
      }
      assert movements[..|movements|] == movements;
    }

    /** Whether the movements account for what is stated for a day. */
    method ReconcileAt(accountId: string, closingDate: int) returns (r: Option<Accounted>)
      requires accountId in accounts
      ensures r == AccountedFor(anchors, accountId, accounts[accountId].movements, closingDate)
    {
      var earlier := Sort(ByDate, Filter(Before(accountId, closingDate), anchors));
      if earlier == [] { return None; }
      var from := earlier[|earlier| - 1];
      var movements, moved := accounts[accountId].movements, 0;
      for i := 0 to |movements|
        invariant moved == MovedBetween(movements[..i], from.coverageDate, closingDate)
      {
        assert movements[..i + 1][..i] == movements[..i];
        if from.coverageDate < movements[i].date <= closingDate {
          moved := moved + movements[i].amount;
        }
      }
      assert movements[..|movements|] == movements;
      r := Some(Accounted(from.amountCents + moved, from.coverageDate));
    }

    /** Makes the balance on the anchor's day the anchor, writing only when the
        row there is not the row it asks for. */
    method ApplyAnchor(anchor: Anchor)
      requires anchor.accountId in accounts
      modifies this`accounts, this`writes
      ensures Contents() == Applied(old(Contents()), anchor)
      ensures Keeps(accounts[anchor.accountId], anchor)
      ensures writes == old(writes) + if old(Keeps(accounts[anchor.accountId], anchor)) then 0 else 1
    {
      var movements := MovementsTo(anchor.accountId, anchor.coverageDate);
      var technical := anchor.amountCents - movements;
      var earliest := EarliestMovement(anchor.accountId);
      var date := if earliest.Some? && earliest.value < anchor.coverageDate then earliest.value else anchor.coverageDate;
      var account := accounts[anchor.accountId];
      if account.startingRow.None? {
        accounts := accounts[anchor.accountId := account.(startingRow := Some(Movement(date, technical)))];
        writes := writes + 1;
      } else if account.startingRow.value.amount != technical || account.startingRow.value.date != date {
        accounts := accounts[anchor.accountId := account.(startingRow := Some(Movement(date, technical)))];
        writes := writes + 1;
      }
    }

    method ReapplyAnchor(accountId: string) returns (anchor: Option<Anchor>)
      requires accountId in accounts
      modifies this`accounts, this`writes
      ensures anchor == Active(anchors, accountId)
      ensures Contents() == Reapplied(old(Contents()), accountId)
      ensures anchor.Some? ==> Keeps(accounts[accountId], anchor.value)
      ensures writes == old(writes) + if anchor.None? || old(Keeps(accounts[accountId], Active(anchors, accountId).value)) then 0 else 1
    {
      anchor := ActiveAnchor(accountId);
      if anchor.None? { return; }
      ActiveIsMine(anchors, accountId);
      ApplyAnchor(anchor.value);
    }

    /** Stating and correcting a balance are one act: the anchor is recorded, and
        the one just recorded, whichever stands, is applied. */
    method StateBalance(accountId: string, amountCents: int, coverageDate: int, now: int) returns (anchor: Anchor)
      requires accountId in accounts
      modifies this
      ensures anchor == Anchor(accountId, amountCents, coverageDate, true, now)
      ensures Contents() == StatedBalance(old(Contents()), anchor)
    {
      anchor := Anchor(accountId, amountCents, coverageDate, true, now);
      anchors := anchors + [anchor];
      ApplyAnchor(anchor);
    }

    /** The part of an import that the balance depends on. */
    method ImportStatements(one: Import)
      modifies this
      ensures Contents() == Imported(old(Contents()), one)
      ensures writes <= old(writes) + 1
    {
      accounts := accounts[one.accountId := Landed(accounts, one)];
      for i := 0 to |one.stated|
        invariant accounts == old(accounts)[one.accountId := Landed(old(accounts), one)] && writes == old(writes)
        invariant WithStated(anchors, one.accountId, one.stated[i..], one.readAt)
                  == WithStated(old(anchors), one.accountId, one.stated, one.readAt)
      {
        assert one.stated[i..][1..] == one.stated[i + 1..];
        if !Already(anchors, one.accountId, one.stated[i]) {
          anchors := anchors + [BankAnchor(one.accountId, one.stated[i], one.readAt)];
        }
      }
      var _ := ReapplyAnchor(one.accountId);
    }
  }

  // -------------------------------------------------------- whole histories

  /** The anchor that stands for an account, if any, is kept by its ledger. */
  ghost predicate AgreesFor(budget: Budget, accountId: string) {
    var active := Active(budget.anchors, accountId);
    active.Some? && accountId in budget.accounts ==> Keeps(budget.accounts[accountId], active.value)
  }

  ghost predicate Agrees(budget: Budget) {
    forall accountId :: accountId in budget.accounts ==> AgreesFor(budget, accountId)
  }

  datatype Operation = BringIn(one: Import) | SetBalance(anchor: Anchor)

  function Perform(budget: Budget, operation: Operation): Budget {
    match operation
    case BringIn(one) => Imported(budget, one)
    case SetBalance(anchor) => if anchor.accountId in budget.accounts then StatedBalance(budget, anchor) else budget
  }

  function PerformAll(budget: Budget, operations: seq<Operation>): Budget
    decreases |operations|
  {
    if operations == [] then budget else PerformAll(Perform(budget, operations[0]), operations[1..])
  }

  lemma OtherAccountsStand(anchors: seq<Anchor>, x: Anchor, accountId: string)
    requires x.accountId != accountId
    ensures Active(anchors + [x], accountId) == Active(anchors, accountId)
  {
    FilterConcat(Of(accountId), anchors, [x]);
    assert Filter(Of(accountId), [x]) == [];
    assert Filter(Of(accountId), anchors) + [] == Filter(Of(accountId), anchors);
  }

  lemma {:induction false} StatementsLeaveOthers(anchors: seq<Anchor>, accountId: string, stated: seq<Reading>, readAt: int, other: string)
    requires other != accountId
    ensures Active(WithStated(anchors, accountId, stated, readAt), other) == Active(anchors, other)
    decreases |stated|
  {
    if stated != [] {
      var one := BankAnchor(accountId, stated[0], readAt);
      OtherAccountsStand(anchors, one, other);
      StatementsLeaveOthers(if Already(anchors, accountId, stated[0]) then anchors else anchors + [one],
                            accountId, stated[1..], readAt, other);
    }
  }

  /** An import always ends with the balance agreeing, whatever it brought in and
      whenever its clock says it was. */
  lemma ImportAgrees(budget: Budget, one: Import)
    requires Agrees(budget)
    ensures Agrees(Imported(budget, one))
  {
    var anchors := WithStated(budget.anchors, one.accountId, one.stated, one.readAt);
    ActiveIsMine(anchors, one.accountId);
    forall accountId | accountId in Imported(budget, one).accounts ensures AgreesFor(Imported(budget, one), accountId) {
      if accountId != one.accountId {
        StatementsLeaveOthers(budget.anchors, one.accountId, one.stated, one.readAt, accountId);
        assert AgreesFor(budget, accountId);
      }
    }
  }

  /** A stated balance ends with the balance agreeing exactly when nothing later
      by the clock overrides it, or what does asks for the very same row. */
  lemma StatingAgrees(budget: Budget, anchor: Anchor)
    requires Agrees(budget) && anchor.manual && anchor.accountId in budget.accounts
    ensures var movements := budget.accounts[anchor.accountId].movements;
      var standing := Active(budget.anchors + [anchor], anchor.accountId);
      standing.Some?
      && (Agrees(StatedBalance(budget, anchor)) <==>
          NothingLaterOverrides(budget.anchors, anchor)
          || TechnicalRow(movements, standing.value) == TechnicalRow(movements, anchor))
  {
    StatedStands(budget.anchors, anchor);
    var after := StatedBalance(budget, anchor);
    HistoryMembers(after.anchors, anchor.accountId, anchor);
    FoldedIsOne(History(after.anchors, anchor.accountId));
    assert Agrees(after) ==> AgreesFor(after, anchor.accountId);
    forall accountId | accountId in after.accounts && accountId != anchor.accountId ensures AgreesFor(after, accountId) {
      OtherAccountsStand(budget.anchors, anchor, accountId);
      assert AgreesFor(budget, accountId);
    }
  }

  /** Every stated balance of a run was stated when nothing later overrode it. */
  ghost predicate StatedInOrder(budget: Budget, operations: seq<Operation>)
    decreases |operations|
  {
    operations == []
    || ((operations[0].SetBalance? ==> operations[0].anchor.manual && NothingLaterOverrides(budget.anchors, operations[0].anchor))
        && StatedInOrder(Perform(budget, operations[0]), operations[1..]))
  }

  /** Over every run of imports and stated balances one after another, the
      ledger's balance on the day of the anchor that stands is that anchor. */
  lemma {:induction false} EveryRunAgrees(budget: Budget, operations: seq<Operation>)
    requires Agrees(budget) && StatedInOrder(budget, operations)
    ensures Agrees(PerformAll(budget, operations))
    decreases |operations|
  {
    if operations != [] {
      match operations[0] {
        case BringIn(one) => ImportAgrees(budget, one);
        case SetBalance(anchor) =>
          if anchor.accountId in budget.accounts {
            StatingAgrees(budget, anchor);
          }
      }
      EveryRunAgrees(Perform(budget, operations[0]), operations[1..]);
    }
  }

  /** The clock going backwards breaks it: stated after, but dated before, a
      figure the bank put in for a later day, a balance is applied and does not
      stand, and the one that stands is no longer what the ledger says. */
  lemma AClockGoneBackDisagrees()
    ensures var bank, stated := Anchor("a", 100, 20, false, 5), Anchor("a", 70, 10, true, 4);
      var budget := Applied(Budget([bank], map["a" := Account([], None)]), bank);
      && Agrees(budget)
      && Active(StatedBalance(budget, stated).anchors, "a") == Some(bank)
      && !Agrees(StatedBalance(budget, stated))
      && BalanceOn(StatedBalance(budget, stated).accounts["a"], 20) == 70
  {
    var bank, stated := Anchor("a", 100, 20, false, 5), Anchor("a", 70, 10, true, 4);
    OnlyActive(bank);
    var both := [bank] + [stated];
    StatedStands([bank], stated);
    assert bank in [bank];
    ActiveIsMine(both, "a");
    HistoryMembers(both, "a", bank);
    FoldedIsOne(History(both, "a"));
    var budget := Applied(Budget([bank], map["a" := Account([], None)]), bank);
    var after := StatedBalance(budget, stated);
    assert "a" in after.accounts && !AgreesFor(after, "a");
  }

  lemma OnlyActive(anchor: Anchor)
    ensures Active([anchor], anchor.accountId) == Some(anchor)
  {
    HistoryMembers([anchor], anchor.accountId, anchor);
    FoldedIsOne(History([anchor], anchor.accountId));
    ActiveIsMine([anchor], anchor.accountId);
  }

  lemma {:induction false} StatementsOnlyAdd(anchors: seq<Anchor>, accountId: string, stated: seq<Reading>, readAt: int)
    ensures anchors <= WithStated(anchors, accountId, stated, readAt)
    decreases |stated|
  {
    if stated != [] {
      StatementsOnlyAdd(if Already(anchors, accountId, stated[0]) then anchors else anchors + [BankAnchor(accountId, stated[0], readAt)],
                        accountId, stated[1..], readAt);
    }
  }

  /** Over every run of operations one after another the history of anchors only
      grows at its end; `Overlap` says when it does with others in between. */
  lemma {:induction false} HistoryOnlyGrows(budget: Budget, operations: seq<Operation>)
    ensures budget.anchors <= PerformAll(budget, operations).anchors
    decreases |operations|
  {
    if operations != [] {
      match operations[0] {
        case BringIn(one) => StatementsOnlyAdd(budget.anchors, one.accountId, one.stated, one.readAt);
        case SetBalance(anchor) =>
      }
      HistoryOnlyGrows(Perform(budget, operations[0]), operations[1..]);
    }
  }

  /** A bank's figure for an account, told of the figure and its day. */
  predicate IsBanks(anchor: Anchor, accountId: string, stated: Reading) {
    && anchor.accountId == accountId && !anchor.manual
    && anchor.amountCents == stated.amountCents && anchor.coverageDate == stated.coverageDate
  }

  function Banks(accountId: string, stated: Reading): Anchor -> bool {
    (anchor: Anchor) => IsBanks(anchor, accountId, stated)
  }

  lemma {:induction false} BanksCounted(anchors: seq<Anchor>, accountId: string, stated: Reading)
    ensures Already(anchors, accountId, stated) <==> Count(Banks(accountId, stated), anchors) > 0
  {
    if anchors != [] {
      BanksCounted(anchors[1..], accountId, stated);
      assert anchors == [anchors[0]] + anchors[1..];
    }
  }

  /** A statement's figure is recorded as the bank's, once, unless the bank's very
      figure for that account and day is there; whatever else is stated, and
      however often, no other figure's number changes. */
  lemma {:induction false} EachFigureIsRecordedOnce(anchors: seq<Anchor>, accountId: string, stated: seq<Reading>, readAt: int,
                                                   account: string, reading: Reading)
    ensures var before, after := Count(Banks(account, reading), anchors),
                                 Count(Banks(account, reading), WithStated(anchors, accountId, stated, readAt));
      after == if before == 0 && account == accountId && reading in stated then 1 else before
    decreases |stated|
  {
    if stated != [] {
      var f, one := Banks(account, reading), BankAnchor(accountId, stated[0], readAt);
      var more := if Already(anchors, accountId, stated[0]) then anchors else anchors + [one];
      CountConcat(f, anchors, [one]);
      assert Count(f, [one]) == if f(one) then 1 else 0;
      assert f(one) <==> account == accountId && reading == stated[0];
      BanksCounted(anchors, account, reading);
      EachFigureIsRecordedOnce(more, accountId, stated[1..], readAt, account, reading);
      assert reading in stated <==> reading == stated[0] || reading in stated[1..];
    }
  }

  lemma {:induction false} StatementsAreTheBanks(anchors: seq<Anchor>, accountId: string, stated: seq<Reading>, readAt: int, k: nat)
    requires |anchors| <= k < |WithStated(anchors, accountId, stated, readAt)|
    ensures var one := WithStated(anchors, accountId, stated, readAt)[k];
      one.accountId == accountId && !one.manual && one.createdAt == readAt && Reading(one.amountCents, one.coverageDate) in stated
    decreases |stated|
  {
    if stated != [] {
      var more := if Already(anchors, accountId, stated[0]) then anchors else anchors + [BankAnchor(accountId, stated[0], readAt)];
      StatementsOnlyAdd(more, accountId, stated[1..], readAt);
      if |more| <= k {
        StatementsAreTheBanks(more, accountId, stated[1..], readAt, k);
      } else {
        assert WithStated(more, accountId, stated[1..], readAt)[k] == more[k];
      }
    }
  }

  /** An import leaves every other account and every figure stated before. Its own
      account has what it had and then what came in, a new one beginning from the
      opening row, and keeps its row unless a figure stands for it; what is added
      to the history is the bank's, of that account and that moment. */
  lemma WhatAnImportLeaves(budget: Budget, one: Import)
    ensures var after := Imported(budget, one);
      var known := one.accountId in budget.accounts;
      && after.accounts.Keys == budget.accounts.Keys + {one.accountId}
      && (forall other :: other in budget.accounts && other != one.accountId ==> after.accounts[other] == budget.accounts[other])
      && after.accounts[one.accountId].movements == (if known then budget.accounts[one.accountId].movements else []) + one.added
      && (Active(after.anchors, one.accountId).None? ==>
            after.accounts[one.accountId].startingRow == if known then budget.accounts[one.accountId].startingRow else one.openingRow)
      && budget.anchors <= after.anchors
      && forall k :: |budget.anchors| <= k < |after.anchors| ==>
           IsBanks(after.anchors[k], one.accountId, Reading(after.anchors[k].amountCents, after.anchors[k].coverageDate))
           && after.anchors[k].createdAt == one.readAt
  {
    StatementsOnlyAdd(budget.anchors, one.accountId, one.stated, one.readAt);
    var after := WithStated(budget.anchors, one.accountId, one.stated, one.readAt);
    ActiveIsMine(after, one.accountId);
    forall k | |budget.anchors| <= k < |after|
      ensures after[k].accountId == one.accountId && !after[k].manual && after[k].createdAt == one.readAt
    {
      StatementsAreTheBanks(budget.anchors, one.accountId, one.stated, one.readAt, k);
    }
  }

  /** A stated balance is added to the history as it was stated, and moves nothing
      but the row of its account: that begins on the first day with a movement, if
      that is before the figure's day, and holds what the movements to that day
      leave open. */
  lemma WhatAStatedBalanceLeaves(budget: Budget, anchor: Anchor)
    requires anchor.accountId in budget.accounts
    ensures var after := StatedBalance(budget, anchor);
      var movements := budget.accounts[anchor.accountId].movements;
      && after.anchors == budget.anchors + [anchor]
      && after.accounts.Keys == budget.accounts.Keys
      && (forall other :: other in budget.accounts && other != anchor.accountId ==> after.accounts[other] == budget.accounts[other])
      && after.accounts[anchor.accountId].movements == movements
      && after.accounts[anchor.accountId].startingRow.Some?
      && var row := after.accounts[anchor.accountId].startingRow.value;
         && row.amount + MovedTo(movements, anchor.coverageDate) == anchor.amountCents
         && row.date <= anchor.coverageDate
         && (forall movement :: movement in movements ==> row.date <= movement.date)
         && (row.date == anchor.coverageDate || exists movement :: movement in movements && movement.date == row.date)
  {
    var movements := budget.accounts[anchor.accountId].movements;
    forall movement | movement in movements
      ensures Earliest(movements).Some? && Earliest(movements).value <= movement.date
    {
      NoneIsEarlier(movements, movement);
    }
    EarliestIsOne(movements);
  }

  lemma {:induction false} EarliestIsOne(movements: seq<Movement>)
    ensures Earliest(movements).Some? ==> exists movement :: movement in movements && movement.date == Earliest(movements).value
  {
    if movements != [] {
      EarliestIsOne(movements[..|movements| - 1]);
      assert movements[|movements| - 1] in movements;
    }
  }

  // ------------------------------------------------------------ importing again

  lemma {:induction false} StatedIsAlready(anchors: seq<Anchor>, accountId: string, stated: seq<Reading>, readAt: int, reading: Reading)
    requires reading in stated || Already(anchors, accountId, reading)
    ensures Already(WithStated(anchors, accountId, stated, readAt), accountId, reading)
    decreases |stated|
  {
    if stated != [] {
      var more := if Already(anchors, accountId, stated[0]) then anchors else anchors + [BankAnchor(accountId, stated[0], readAt)];
      assert BankAnchor(accountId, stated[0], readAt) in anchors + [BankAnchor(accountId, stated[0], readAt)];
      assert reading in stated && reading != stated[0] ==> reading in stated[1..];
      StatedIsAlready(more, accountId, stated[1..], readAt, reading);
    }
  }

  lemma {:induction false} AlreadyAddsNothing(anchors: seq<Anchor>, accountId: string, stated: seq<Reading>, readAt: int)
    requires forall reading :: reading in stated ==> Already(anchors, accountId, reading)
    ensures WithStated(anchors, accountId, stated, readAt) == anchors
    decreases |stated|
  {
    if stated != [] {
      AlreadyAddsNothing(anchors, accountId, stated[1..], readAt);
    }
  }

  lemma StatingAgainAddsNothing(anchors: seq<Anchor>, accountId: string, stated: seq<Reading>, readAt: int, later: int)
    ensures var once := WithStated(anchors, accountId, stated, readAt);
      WithStated(once, accountId, stated, later) == once
  {
    var once := WithStated(anchors, accountId, stated, readAt);
    forall reading | reading in stated ensures Already(once, accountId, reading) {
      StatedIsAlready(anchors, accountId, stated, readAt, reading);
    }
    AlreadyAddsNothing(once, accountId, stated, later);
  }

  /** Importing the same statements again, which adds no movement, changes nothing. */
  lemma ImportingAgainIsNothing(budget: Budget, one: Import, readAt: int)
    ensures var once := Imported(budget, one);
      Imported(once, one.(added := [], readAt := readAt)) == once
  {
    var once := Imported(budget, one);
    ActiveIsMine(WithStated(budget.anchors, one.accountId, one.stated, one.readAt), one.accountId);
    StatingAgainAddsNothing(budget.anchors, one.accountId, one.stated, one.readAt, readAt);
    var account := once.accounts[one.accountId];
    assert account.movements + [] == account.movements;
    assert once.accounts[one.accountId := account] == once.accounts;
  }

  /** Older statements imported later do not displace the anchor that stands. */
  lemma {:induction false} OlderStatementsKeep(anchors: seq<Anchor>, accountId: string, stated: seq<Reading>, readAt: int, standing: Anchor)
    requires Active(anchors, accountId) == Some(standing)
    requires forall reading :: reading in stated ==> reading.coverageDate <= standing.coverageDate
    requires standing.createdAt <= readAt
    ensures Active(WithStated(anchors, accountId, stated, readAt), accountId) == Some(standing)
    decreases |stated|
  {
    if stated != [] {
      var one := BankAnchor(accountId, stated[0], readAt);
      assert stated[0] in stated;
      ReachingNoFurtherKeeps(anchors, standing, one);
      OlderStatementsKeep(if Already(anchors, accountId, stated[0]) then anchors else anchors + [one],
                          accountId, stated[1..], readAt, standing);
    }
  }
}
