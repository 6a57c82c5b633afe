/** Applying an anchor, which awaits each of its three questions to the ledger and
    then its write (ayq-anchors.ts), while movements land and others apply. The
    steps are the stretches between two awaits; the ledger is one account's. */
module LedgerOverlap {
  import opened Lists
  import opened Anchors

  type Task = nat

  /** `Anchors.Account` with any number of technical rows, in the order added. */
  datatype Ledger = Ledger(movements: seq<Movement>, rows: seq<Movement>)

  function AsLedger(account: Account): Ledger {
    Ledger(account.movements, if account.startingRow.Some? then [account.startingRow.value] else [])
  }

  function BalanceIn(ledger: Ledger, day: int): int {
    MovedTo(ledger.movements, day) + MovedTo(ledger.rows, day)
  }

  /** Both read the same balance. */
  lemma BalancesAgree(account: Account, day: int)
    ensures BalanceIn(AsLedger(account), day) == BalanceOn(account, day)
  {
    if account.startingRow.Some? {
      RowsSplit([account.startingRow.value], 0, day);
    }
  }

  /** Where the earliest row is: the one that gets corrected. */
  function FirstRow(rows: seq<Movement>): (found: Option<nat>)
    ensures found.None? <==> rows == []
    ensures found.Some? ==> found.value < |rows| && forall i :: 0 <= i < |rows| ==> rows[found.value].date <= rows[i].date
  {
    if rows == [] then None
    else
      var n := |rows| - 1;
      var before := FirstRow(rows[..n]);
      if before.None? || rows[n].date < rows[before.value].date then Some(n) else before
  }

  /** A row that was found, and what it was then. */
  datatype Seen = Seen(at: nat, row: Movement)

  function Look(rows: seq<Movement>): Option<Seen> {
    var at := FirstRow(rows);
    if at.None? then None else Some(Seen(at.value, rows[at.value]))
  }

  datatype Stage = Measured | Dated(date: int) | Looked(date: int, existing: Option<Seen>)

  /** How far an apply has come, and what it measured. */
  datatype Applying = Applying(anchor: Anchor, moved: int, stage: Stage)

  datatype World = World(ledger: Ledger, applying: map<Task, Applying>)

  datatype Step =
    | Land(added: seq<Movement>)
    | Measure(task: Task, anchor: Anchor)
    | FindDay(task: Task)
    | FindRow(task: Task)
    | Put(task: Task)

  function Asked(one: Applying): Movement
    requires !one.stage.Measured?
  {
    Movement(one.stage.date, one.anchor.amountCents - one.moved)
  }

  predicate Stands(rows: seq<Movement>, existing: Option<Seen>) {
    existing.Some? ==> existing.value.at < |rows|
  }

  predicate Possible(w: World, step: Step) {
    match step
    case Land(_) => true
    case Measure(task, _) => task !in w.applying
    case FindDay(task) => task in w.applying && w.applying[task].stage.Measured?
    case FindRow(task) => task in w.applying && w.applying[task].stage.Dated?
    case Put(task) => task in w.applying && w.applying[task].stage.Looked? && Stands(w.ledger.rows, w.applying[task].stage.existing)
  }

  function DayFor(movements: seq<Movement>, anchor: Anchor): int {
    var earliest := Earliest(movements);
    if earliest.Some? && earliest.value < anchor.coverageDate then earliest.value else anchor.coverageDate
  }

  /** The write: a new row if none was found, the row that was if it was not as
      asked, and nothing otherwise. */
  function RowsPut(rows: seq<Movement>, one: Applying): seq<Movement>
    requires one.stage.Looked? && Stands(rows, one.stage.existing)
  {
    var existing := one.stage.existing;
    if existing.None? then rows + [Asked(one)]
    else if existing.value.row != Asked(one) then rows[existing.value.at := Asked(one)]
    else rows
  }

  function Next(w: World, step: Step): World
    requires Possible(w, step)
  {
    match step
    case Land(added) => w.(ledger := w.ledger.(movements := w.ledger.movements + added))
    case Measure(task, anchor) =>
      w.(applying := w.applying[task := Applying(anchor, MovedTo(w.ledger.movements, anchor.coverageDate), Measured)])
    case FindDay(task) =>
      var one := w.applying[task];
      w.(applying := w.applying[task := one.(stage := Dated(DayFor(w.ledger.movements, one.anchor)))])
    case FindRow(task) =>
      var one := w.applying[task];
      w.(applying := w.applying[task := one.(stage := Looked(one.stage.date, Look(w.ledger.rows)))])
    case Put(task) =>
      World(w.ledger.(rows := RowsPut(w.ledger.rows, w.applying[task])), w.applying - {task})
  }

  ghost predicate Runs(w: World, steps: seq<Step>, after: World)
    decreases |steps|
  {
    if steps == [] then after == w
    else Possible(w, steps[0]) && Runs(Next(w, steps[0]), steps[1..], after)
  }

  // -------------------------------------------------- what always holds

  /** No row is dated after its anchor's day, and none that was found goes away. */
  ghost predicate IsOnItsWay(rows: seq<Movement>, one: Applying) {
    && (!one.stage.Measured? ==> one.stage.date <= one.anchor.coverageDate)
    && (one.stage.Looked? ==> Stands(rows, one.stage.existing))
  }

  ghost predicate Sound(w: World) {
    forall task :: task in w.applying ==> IsOnItsWay(w.ledger.rows, w.applying[task])
  }

  lemma NextIsSound(w: World, step: Step)
    requires Sound(w) && Possible(w, step)
    ensures Sound(Next(w, step)) && |w.ledger.rows| <= |Next(w, step).ledger.rows|
  {
    var next := Next(w, step);
    forall task | task in next.applying ensures IsOnItsWay(next.ledger.rows, next.applying[task]) {
      assert step.Measure? || task in w.applying;
    }
  }

  /** Over every interleaving rows are only ever added or corrected in place. */
  lemma {:induction false} EveryRunIsSound(w: World, steps: seq<Step>, after: World)
    requires Sound(w) && Runs(w, steps, after)
    ensures Sound(after) && |w.ledger.rows| <= |after.ledger.rows|
    decreases |steps|
  {
    if steps != [] {
      NextIsSound(w, steps[0]);
      EveryRunIsSound(Next(w, steps[0]), steps[1..], after);
    }
  }

  // -------------------------------------------- what a written row comes to

  /** What an apply wrote to, or left as it found it. */
  function PutAt(rows: seq<Movement>, one: Applying): nat
    requires one.stage.Looked?
  {
    if one.stage.existing.Some? then one.stage.existing.value.at else |rows|
  }

  function OtherRows(rows: seq<Movement>, at: nat, day: int): int
    requires at < |rows|
  {
    MovedTo(rows[..at], day) + MovedTo(rows[at + 1..], day)
  }

  lemma RowsSplit(rows: seq<Movement>, at: nat, day: int)
    requires at < |rows|
    ensures MovedTo(rows, day) == OtherRows(rows, at, day) + To(day)(rows[at])
  {
    assert rows == rows[..at] + ([rows[at]] + rows[at + 1..]);
    SumConcat(To(day), rows[..at], [rows[at]] + rows[at + 1..]);
    SumConcat(To(day), [rows[at]], rows[at + 1..]);
    assert [rows[at]][..0] == [];
  }

  /** What the balance on the anchor's day is off by, once an apply has put its
      row: what has moved since it measured, the rows beside the one it put, and,
      if it had found that row as asked and so left it, what that row has become. */
  lemma OffBy(w: World, task: Task)
    requires Sound(w) && Possible(w, Put(task))
    ensures var one, after := w.applying[task], Next(w, Put(task)).ledger;
      var day, at := one.anchor.coverageDate, PutAt(w.ledger.rows, one);
      && at < |after.rows|
      && BalanceIn(after, day) - one.anchor.amountCents
         == (MovedTo(w.ledger.movements, day) - one.moved) + OtherRows(after.rows, at, day) + (To(day)(after.rows[at]) - Asked(one).amount)
      && (one.stage.existing.None? || one.stage.existing.value.row != Asked(one) ==> To(day)(after.rows[at]) == Asked(one).amount)
  {
    var one, after := w.applying[task], Next(w, Put(task)).ledger;
    assert IsOnItsWay(w.ledger.rows, one);
    RowsSplit(after.rows, PutAt(w.ledger.rows, one), one.anchor.coverageDate);
  }

  // ------------------------------------------------------ whole interleavings

  /** What lands in a run, up to a day. */
  function LandedUpTo(steps: seq<Step>, day: int): int
    decreases |steps|
  {
    if steps == [] then 0
    else (if steps[0].Land? then MovedTo(steps[0].added, day) else 0) + LandedUpTo(steps[1..], day)
  }

  lemma {:induction false} LandingMoves(w: World, steps: seq<Step>, after: World, day: int)
    requires Runs(w, steps, after)
    ensures MovedTo(after.ledger.movements, day) == MovedTo(w.ledger.movements, day) + LandedUpTo(steps, day)
    decreases |steps|
  {
    if steps != [] {
      if steps[0].Land? {
        SumConcat(To(day), w.ledger.movements, steps[0].added);
      }
      LandingMoves(Next(w, steps[0]), steps[1..], after, day);
    }
  }

  predicate MeasuresAgain(step: Step, task: Task) {
    step.Measure? && step.task == task
  }

  lemma {:induction false} GoneStaysGone(w: World, steps: seq<Step>, after: World, task: Task)
    requires Runs(w, steps, after) && task !in w.applying
    requires forall step :: step in steps ==> !MeasuresAgain(step, task)
    ensures task !in after.applying
    decreases |steps|
  {
    if steps != [] {
      assert steps[0] in steps;
      GoneStaysGone(Next(w, steps[0]), steps[1..], after, task);
    }
  }

  lemma {:induction false} MeasuredStays(w: World, steps: seq<Step>, after: World, task: Task)
    requires Runs(w, steps, after) && task in w.applying && task in after.applying
    requires forall step :: step in steps ==> !MeasuresAgain(step, task)
    ensures after.applying[task].anchor == w.applying[task].anchor && after.applying[task].moved == w.applying[task].moved
    decreases |steps|
  {
    if steps != [] {
      assert steps[0] in steps;
      var next := Next(w, steps[0]);
      if task in next.applying {
        MeasuredStays(next, steps[1..], after, task);
      } else {
        GoneStaysGone(next, steps[1..], after, task);
      }
    }
  }

  /** Just measured. */
  ghost predicate HasMeasured(w: World, task: Task) {
    && task in w.applying && w.applying[task].stage.Measured?
    && w.applying[task].moved == MovedTo(w.ledger.movements, w.applying[task].anchor.coverageDate)
  }

  /** Over every interleaving between an apply's measuring and its write, the
      balance on the day is then off by what landed meanwhile up to that day, by
      the other rows, and by what others made of a row it left. */
  lemma OffByWhatCameBetween(w: World, between: seq<Step>, before: World, task: Task)
    requires Sound(w) && HasMeasured(w, task) && Runs(w, between, before) && Possible(before, Put(task))
    requires forall step :: step in between ==> !MeasuresAgain(step, task)
    ensures var one, after := before.applying[task], Next(before, Put(task)).ledger;
      var day, at := w.applying[task].anchor.coverageDate, PutAt(before.ledger.rows, one);
      && at < |after.rows| && one.anchor == w.applying[task].anchor
      && BalanceIn(after, day) - one.anchor.amountCents
         == LandedUpTo(between, day) + OtherRows(after.rows, at, day) + (To(day)(after.rows[at]) - Asked(one).amount)
  {
    EveryRunIsSound(w, between, before);
    MeasuredStays(w, between, before, task);
    LandingMoves(w, between, before, w.applying[task].anchor.coverageDate);
    OffBy(before, task);
  }

  lemma {:induction false} RowsStand(w: World, steps: seq<Step>, after: World, task: Task)
    requires Runs(w, steps, after) && task in w.applying && task in after.applying
    requires forall step :: step in steps ==> !step.Put? && !MeasuresAgain(step, task)
    requires w.applying[task].stage.Looked? ==> w.applying[task].stage.existing == Look(w.ledger.rows)
    ensures after.ledger.rows == w.ledger.rows
    ensures after.applying[task].stage.Looked? ==> after.applying[task].stage.existing == Look(w.ledger.rows)
    decreases |steps|
  {
    if steps != [] {
      assert steps[0] in steps;
      RowsStand(Next(w, steps[0]), steps[1..], after, task);
    }
  }

  /** Over every interleaving in which no other apply writes in between, an apply
      to a ledger of one row at most leaves one, and the balance on the day is the
      anchor exactly when what landed in between up to that day comes to nothing. */
  lemma RightUnlessSomethingLands(w: World, between: seq<Step>, before: World, task: Task)
    requires Sound(w) && HasMeasured(w, task) && Runs(w, between, before) && Possible(before, Put(task))
    requires forall step :: step in between ==> !step.Put? && !MeasuresAgain(step, task)
    requires |w.ledger.rows| <= 1
    ensures var after, anchor := Next(before, Put(task)).ledger, w.applying[task].anchor;
      && |after.rows| == 1
      && BalanceIn(after, anchor.coverageDate) == anchor.amountCents + LandedUpTo(between, anchor.coverageDate)
  {
    var day := w.applying[task].anchor.coverageDate;
    EveryRunIsSound(w, between, before);
    assert IsOnItsWay(before.ledger.rows, before.applying[task]);
    MeasuredStays(w, between, before, task);
    RowsStand(w, between, before, task);
    LandingMoves(w, between, before, day);
    OnlyRowIsPut(before.ledger, before.applying[task]);
  }

  lemma OnlyRowIsPut(ledger: Ledger, one: Applying)
    requires |ledger.rows| <= 1 && one.stage.Looked? && one.stage.existing == Look(ledger.rows)
    requires one.stage.date <= one.anchor.coverageDate
    ensures Stands(ledger.rows, one.stage.existing)
    ensures var rows, day := RowsPut(ledger.rows, one), one.anchor.coverageDate;
      |rows| == 1 && MovedTo(ledger.movements, day) + MovedTo(rows, day) == one.anchor.amountCents + MovedTo(ledger.movements, day) - one.moved
  {
    var rows := RowsPut(ledger.rows, one);
    assert rows == [Asked(one)];
    RowsSplit(rows, 0, one.anchor.coverageDate);
  }

  // --------------------------------------------- an apply that is not disturbed

  function Alone(task: Task, anchor: Anchor): seq<Step> {
    [Measure(task, anchor), FindDay(task), FindRow(task), Put(task)]
  }

  /** What an apply is when nothing comes between. */
  function PutAtOnce(ledger: Ledger, anchor: Anchor): Ledger {
    var row := TechnicalRow(ledger.movements, anchor);
    var at := FirstRow(ledger.rows);
    ledger.(rows := if at.None? then [row] else ledger.rows[at.value := row])
  }

  lemma AloneIsAtOnce(w: World, task: Task, anchor: Anchor)
    requires task !in w.applying
    ensures Runs(w, Alone(task, anchor), World(PutAtOnce(w.ledger, anchor), w.applying))
  {
    var steps := Alone(task, anchor);
    var measured := Next(w, steps[0]);
    var dated := Next(measured, steps[1]);
    var looked := Next(dated, steps[2]);
    var one := looked.applying[task];
    assert Asked(one) == TechnicalRow(w.ledger.movements, anchor);
    var after := Next(looked, steps[3]);
    assert after == World(PutAtOnce(w.ledger, anchor), w.applying) by {
      assert looked.applying - {task} == w.applying;
    }
    FourSteps(w, steps, measured, dated, looked, after);
  }

  lemma FourSteps(w: World, steps: seq<Step>, one: World, two: World, three: World, four: World)
    requires |steps| == 4 && Possible(w, steps[0]) && one == Next(w, steps[0])
    requires Possible(one, steps[1]) && two == Next(one, steps[1])
    requires Possible(two, steps[2]) && three == Next(two, steps[2])
    requires Possible(three, steps[3]) && four == Next(three, steps[3])
    ensures Runs(w, steps, four)
  {
    assert Runs(three, [steps[3]], four) by {
      assert [steps[3]][1..] == [];
    }
    assert steps[2..][1..] == [steps[3]] && steps[1..][1..] == steps[2..];
    assert Runs(two, steps[2..], four);
    assert Runs(one, steps[1..], four);
  }

  /** Undisturbed, on an account of one row at most, it is `Anchors.Applied`. */
  lemma UndisturbedIsApplied(budget: Budget, anchor: Anchor)
    requires anchor.accountId in budget.accounts
    ensures var ledger := AsLedger(budget.accounts[anchor.accountId]);
      Runs(World(ledger, map[]), Alone(0, anchor), World(AsLedger(Applied(budget, anchor).accounts[anchor.accountId]), map[]))
  {
    var ledger := AsLedger(budget.accounts[anchor.accountId]);
    AloneIsAtOnce(World(ledger, map[]), 0, anchor);
    var row := TechnicalRow(ledger.movements, anchor);
    assert PutAtOnce(ledger, anchor).rows == [row];
  }

  /** Undisturbed, on any ledger, it is off by the rows beside the one it corrects. */
  lemma UndisturbedIsOffByOtherRows(ledger: Ledger, anchor: Anchor)
    ensures var after, at := PutAtOnce(ledger, anchor), FirstRow(ledger.rows).GetOr(0);
      && at < |after.rows|
      && BalanceIn(after, anchor.coverageDate) == anchor.amountCents + OtherRows(after.rows, at, anchor.coverageDate)
  {
    var after, at := PutAtOnce(ledger, anchor), FirstRow(ledger.rows).GetOr(0);
    RowsSplit(after.rows, at, anchor.coverageDate);
  }

  // ------------------------------------------------------- where it fails

  /** An import lands while an apply awaits: the balance on the day is off by
      all that landed up to it. */
  lemma AnImportLandsInBetween(ledger: Ledger, anchor: Anchor, added: seq<Movement>) returns (between: seq<Step>, before: World)
    requires |ledger.rows| <= 1
    ensures var measured := Next(World(ledger, map[]), Measure(0, anchor));
      between == [FindDay(0), FindRow(0), Land(added)] && Runs(measured, between, before) && Possible(before, Put(0))
    ensures BalanceIn(Next(before, Put(0)).ledger, anchor.coverageDate) == anchor.amountCents + MovedTo(added, anchor.coverageDate)
  {
    between := [FindDay(0), FindRow(0), Land(added)];
    var measured := Next(World(ledger, map[]), Measure(0, anchor));
    var dated := Next(measured, between[0]);
    var looked := Next(dated, between[1]);
    before := Next(looked, between[2]);
    ThreeSteps(measured, between, dated, looked, before);
    LandedOnce(between, added, anchor.coverageDate);
    RightUnlessSomethingLands(measured, between, before, 0);
  }

  lemma LandedOnce(between: seq<Step>, added: seq<Movement>, day: int)
    requires |between| == 3 && !between[0].Land? && !between[1].Land? && between[2] == Land(added)
    ensures LandedUpTo(between, day) == MovedTo(added, day)
  {
    assert between[1..][1..] == [Land(added)] && [Land(added)][1..] == [];
    assert LandedUpTo([Land(added)], day) == MovedTo(added, day);
    assert LandedUpTo(between[1..], day) == LandedUpTo([Land(added)], day);
  }

  lemma ThreeSteps(w: World, steps: seq<Step>, one: World, two: World, three: World)
    requires |steps| == 3 && Possible(w, steps[0]) && one == Next(w, steps[0])
    requires Possible(one, steps[1]) && two == Next(one, steps[1])
    requires Possible(two, steps[2]) && three == Next(two, steps[2])
    ensures Runs(w, steps, three)
  {
    assert Runs(two, [steps[2]], three) by {
      assert [steps[2]][1..] == [];
    }
    assert steps[1..][1..] == [steps[2]];
    assert Runs(one, steps[1..], three);
  }

  /** Two first balances at once, of an account that has no row: each finds none,
      and each adds one. */
  lemma TwoFirstBalancesMakeTwoRows(movements: seq<Movement>, one: Anchor, other: Anchor) returns (steps: seq<Step>, after: World)
    ensures steps == [Measure(0, one), FindDay(0), FindRow(0)] + Alone(1, other) + [Put(0)]
    ensures Runs(World(Ledger(movements, []), map[]), steps, after)
    ensures after.ledger == Ledger(movements, [TechnicalRow(movements, other), TechnicalRow(movements, one)])
  {
    var w := World(Ledger(movements, []), map[]);
    var first := [Measure(0, one), FindDay(0), FindRow(0)];
    var looked := Next(Next(Next(w, first[0]), first[1]), first[2]);
    ThreeSteps(w, first, Next(w, first[0]), Next(Next(w, first[0]), first[1]), looked);
    AloneIsAtOnce(looked, 1, other);
    var placed := World(PutAtOnce(looked.ledger, other), looked.applying);
    after := Next(placed, Put(0));
    assert Runs(placed, [Put(0)], after) by {
      assert [Put(0)][1..] == [];
    }
    RunsJoin(looked, Alone(1, other), placed, [Put(0)], after);
    RunsJoin(w, first, looked, Alone(1, other) + [Put(0)], after);
    steps := first + (Alone(1, other) + [Put(0)]);
    assert steps == first + Alone(1, other) + [Put(0)];
  }

  lemma {:induction false} RunsJoin(w: World, first: seq<Step>, between: World, rest: seq<Step>, after: World)
    requires Runs(w, first, between) && Runs(between, rest, after)
    ensures Runs(w, first + rest, after)
    decreases |first|
  {
    if first == [] {
      assert first + rest == rest;
    } else {
      RunsJoin(Next(w, first[0]), first[1..], between, rest, after);
      assert (first + rest)[1..] == first[1..] + rest;
    }
  }
}
