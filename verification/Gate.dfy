/** The gate between shared and exclusive work (ayq-gate.ts), as a machine whose
    steps are the stretches of code between two awaits. */
module Gate {
  import opened Lists

  type Task = nat

  datatype Kind = Shared | Exclusive

  /** Where a task stands: what it awaits, or that its body is running. */
  datatype Position =
    | Absent
    | Waiting(run: Task)   // awaiting the exclusive run it found in its way
    | Working              // a shared body
    | Asleep               // holds the gate, until the shared bodies are done
    | Woken                // its wake-up has been called; it resumes later
    | Alone                // an exclusive body
    | Finished

  datatype State = State(
    kinds: map<Task, Kind>,
    at: map<Task, Position>,
    working: int,
    alone: Option<Task>,
    whenIdle: seq<Task>,
    settled: set<Task>)

  /** A step of one task. `callThrows` says that its work, called, threw instead
      of answering a promise, which only matters when it is entered at once. An
      async function never does that: what it throws, before its first await or
      after, it answers as a promise, and its run ends by `End`. */
  datatype Step =
    | Arrive(task: Task, callThrows: bool)
    | Resume(task: Task, callThrows: bool)
    | Wake(task: Task)
    | End(task: Task)

  function Initial(kinds: map<Task, Kind>): State {
    State(kinds, map task | task in kinds :: Absent, 0, None, [], {})
  }

  predicate Possible(s: State, step: Step) {
    step.task in s.kinds && step.task in s.at &&
    match step
    case Arrive(task, callThrows) => s.at[task].Absent? && (callThrows ==> EntersAtOnce(s, task))
    case Resume(task, callThrows) => s.at[task].Waiting? && s.at[task].run in s.settled && (callThrows ==> EntersAtOnce(s, task))
    case Wake(task) => s.at[task].Woken?
    case End(task) => s.at[task].Working? || s.at[task].Alone?
  }

  predicate EntersAtOnce(s: State, task: Task) {
    task in s.kinds && s.kinds[task].Exclusive? && s.alone.None? && s.working == 0
  }

  /** The loop on `alone` and what follows it, up to the next await. */
  function Enter(s: State, task: Task, callThrows: bool): State
    requires task in s.kinds
  {
    if s.alone.Some? then s.(at := s.at[task := Waiting(s.alone.value)])
    else if s.kinds[task].Shared? then s.(at := s.at[task := Working], working := s.working + 1)
    else if s.working > 0 then
      s.(at := s.at[task := Asleep], whenIdle := s.whenIdle + [task], alone := Some(task))
    else if callThrows then
      // The body's own `finally` has opened the gate before it is taken.
      s.(at := s.at[task := Finished], settled := s.settled + {task}, alone := Some(task))
    else s.(at := s.at[task := Alone], alone := Some(task))
  }

  function Woke(at: map<Task, Position>, sleepers: seq<Task>): map<Task, Position> {
    map task | task in at :: if task in sleepers then Woken else at[task]
  }

  function Leave(s: State, task: Task): State
    requires task in s.at
  {
    if s.at[task].Working? then
      var left := s.(at := s.at[task := Finished], working := s.working - 1);
      if left.working == 0 then left.(at := Woke(left.at, left.whenIdle), whenIdle := []) else left
    else s.(at := s.at[task := Finished], alone := None, settled := s.settled + {task})
  }

  function Next(s: State, step: Step): State
    requires Possible(s, step)
  {
    match step
    case Arrive(task, callThrows) => Enter(s, task, callThrows)
    case Resume(task, callThrows) => Enter(s, task, callThrows)
    case Wake(task) => s.(at := s.at[task := Alone])
    case End(task) => Leave(s, task)
  }

  ghost predicate Runs(s: State, steps: seq<Step>, after: State)
    decreases |steps|
  {
    if steps == [] then after == s
    else Possible(s, steps[0]) && Runs(Next(s, steps[0]), steps[1..], after)
  }

  predicate CallThrows(step: Step) {
    (step.Arrive? || step.Resume?) && step.callThrows
  }

  // ------------------------------------------------------- what is kept

  ghost function Bodies(s: State): set<Task> {
    set task | task in s.at && s.at[task].Working?
  }

  /** It holds the gate. */
  predicate Holds(position: Position) {
    position.Asleep? || position.Woken? || position.Alone?
  }

  ghost predicate Sound(s: State) {
    && s.at.Keys == s.kinds.Keys
    && s.working == |Bodies(s)|
    && (forall task :: task in s.at && s.at[task].Working? ==> s.kinds[task].Shared?)
    && (forall task :: task in s.at && Holds(s.at[task]) ==> s.kinds[task].Exclusive? && s.alone == Some(task))
    && (s.alone.Some? ==> s.alone.value in s.at && Holds(s.at[s.alone.value]))
    && (forall task :: task in s.at && (s.at[task].Woken? || s.at[task].Alone?) ==> s.working == 0)
    && (forall task :: task in s.at && s.at[task].Asleep? ==> s.working > 0 && s.whenIdle == [task])
    && (s.whenIdle == [] || (s.alone.Some? && s.whenIdle == [s.alone.value] && s.at[s.alone.value].Asleep?))
    && (forall task :: task in s.at && s.at[task].Waiting? ==> s.at[task].run in s.settled || s.alone == Some(s.at[task].run))
    && (forall task :: task in s.settled ==> task in s.at && s.at[task].Finished?)
  }

  lemma InitialIsSound(kinds: map<Task, Kind>)
    ensures Sound(Initial(kinds))
  {
    assert Bodies(Initial(kinds)) == {};
  }

  lemma FindingItHeldIsSound(s: State, task: Task)
    requires Sound(s) && task in s.at && !Holds(s.at[task]) && !s.at[task].Working? && !s.at[task].Finished? && s.alone.Some?
    ensures Sound(s.(at := s.at[task := Waiting(s.alone.value)]))
  {
    assert Bodies(s.(at := s.at[task := Waiting(s.alone.value)])) == Bodies(s);
  }

  lemma StartingIsSound(s: State, task: Task)
    requires Sound(s) && task in s.at && (s.at[task].Absent? || s.at[task].Waiting?)
    requires s.alone.None? && s.kinds[task].Shared?
    ensures Sound(Enter(s, task, false))
  {
    assert Bodies(Enter(s, task, false)) == Bodies(s) + {task};
  }

  lemma TakingIsSound(s: State, task: Task)
    requires Sound(s) && task in s.at && (s.at[task].Absent? || s.at[task].Waiting?)
    requires s.alone.None? && s.kinds[task].Exclusive?
    ensures Sound(Enter(s, task, false))
  {
    assert Bodies(Enter(s, task, false)) == Bodies(s);
  }

  lemma EnterIsSound(s: State, task: Task)
    requires Sound(s) && task in s.at && (s.at[task].Absent? || s.at[task].Waiting?)
    ensures Sound(Enter(s, task, false))
  {
    if s.alone.Some? {
      FindingItHeldIsSound(s, task);
    } else if s.kinds[task].Shared? {
      StartingIsSound(s, task);
    } else {
      TakingIsSound(s, task);
    }
  }

  lemma SharedLeavesIsSound(s: State, task: Task)
    requires Sound(s) && task in s.at && s.at[task].Working? && s.working > 1
    ensures Sound(Leave(s, task))
  {
    assert task in Bodies(s);
    assert Bodies(Leave(s, task)) == Bodies(s) - {task};
  }

  /** The last shared body out wakes whoever sleeps. */
  lemma LastSharedLeavesIsSound(s: State, task: Task)
    requires Sound(s) && task in s.at && s.at[task].Working? && s.working <= 1
    ensures Sound(Leave(s, task))
  {
    assert task in Bodies(s);
    assert |Bodies(s) - {task}| == 0;
    assert Bodies(s) == {task};
    var after := Leave(s, task);
    AllOutIsSound(s, task, after.at);
    assert after == s.(at := after.at, working := 0, whenIdle := []);
  }

  lemma AllOutIsSound(s: State, task: Task, at: map<Task, Position>)
    requires Sound(s) && task in s.at && s.at[task].Working? && Bodies(s) == {task}
    requires at.Keys == s.at.Keys
    requires forall other :: other in at ==> at[other] == if other == task then Finished else if other in s.whenIdle then Woken else s.at[other]
    ensures Sound(s.(at := at, working := 0, whenIdle := []))
  {
    var after := s.(at := at, working := 0, whenIdle := []);
    forall other | other in at ensures !at[other].Working? && !at[other].Asleep? {
      assert s.at[other].Working? ==> other in Bodies(s);
    }
    assert Bodies(after) == {};
  }

  lemma ExclusiveLeavesIsSound(s: State, task: Task)
    requires Sound(s) && task in s.at && s.at[task].Alone?
    ensures Sound(Leave(s, task))
  {
    assert Bodies(Leave(s, task)) == Bodies(s);
  }

  lemma LeaveIsSound(s: State, task: Task)
    requires Sound(s) && task in s.at && (s.at[task].Working? || s.at[task].Alone?)
    ensures Sound(Leave(s, task))
  {
    if s.at[task].Alone? {
      ExclusiveLeavesIsSound(s, task);
    } else if s.working > 1 {
      SharedLeavesIsSound(s, task);
    } else {
      LastSharedLeavesIsSound(s, task);
    }
  }

  lemma NextIsSound(s: State, step: Step)
    requires Sound(s) && Possible(s, step) && !CallThrows(step)
    ensures Sound(Next(s, step))
  {
    match step
    case Arrive(task, _) => EnterIsSound(s, task);
    case Resume(task, _) => EnterIsSound(s, task);
    case Wake(task) => assert Bodies(Next(s, step)) == Bodies(s);
    case End(task) => LeaveIsSound(s, task);
  }

  lemma {:induction false} EveryRunIsSound(s: State, steps: seq<Step>, after: State)
    requires Sound(s) && Runs(s, steps, after)
    requires forall step :: step in steps ==> !CallThrows(step)
    ensures Sound(after)
    decreases |steps|
  {
    if steps != [] {
      assert steps[0] in steps;
      NextIsSound(s, steps[0]);
      EveryRunIsSound(Next(s, steps[0]), steps[1..], after);
    }
  }

  /** Exclusive work runs alone: while an exclusive body runs there is no shared
      body and no other exclusive one; and nobody sleeps on an idle gate. */
  lemma ExclusiveRunsAlone(kinds: map<Task, Kind>, steps: seq<Step>, s: State)
    requires Runs(Initial(kinds), steps, s) && forall step :: step in steps ==> !CallThrows(step)
    ensures forall a, b :: a in s.at && b in s.at && s.at[a].Alone? && (s.at[b].Working? || s.at[b].Alone?) ==> a == b
    ensures forall task :: task in s.at && s.at[task].Asleep? ==> exists other :: other in s.at && s.at[other].Working?
  {
    InitialIsSound(kinds);
    EveryRunIsSound(Initial(kinds), steps, s);
    assert forall b :: b in s.at && s.at[b].Working? ==> b in Bodies(s);
    if task :| task in s.at && s.at[task].Asleep? {
      var other :| other in Bodies(s);
      assert s.at[other].Working?;
    }
  }

  /** Once the gate is taken no shared body starts, and every step leaves the
      number still running the same or one less: the drain goes one way. */
  lemma NothingStartsWhileHeld(s: State, step: Step)
    requires Sound(s) && Possible(s, step) && s.alone.Some?
    ensures Bodies(Next(s, step)) <= Bodies(s)
    ensures Next(s, step).working == s.working - if step.End? && s.at[step.task].Working? then 1 else 0
    ensures Next(s, step).alone == s.alone || (step.End? && s.alone == Some(step.task))
  {
  }

  /** Held from one state to another, whatever happens between. */
  ghost predicate HeldThroughout(s: State, steps: seq<Step>, after: State)
    decreases |steps|
  {
    s.alone.Some? &&
    if steps == [] then after == s
    else Possible(s, steps[0]) && !CallThrows(steps[0]) && HeldThroughout(Next(s, steps[0]), steps[1..], after)
  }

  /** What may still happen before the gate opens: somebody arrives, a waiter
      finds it held, a shared body ends, the sleeper is woken, and goes on. */
  ghost function Arriving(s: State): set<Task> {
    set task | task in s.at && (s.at[task].Absent? || (s.at[task].Waiting? && s.at[task].run in s.settled))
  }

  ghost function ToGo(s: State): int
    requires s.alone.Some? && s.alone.value in s.at
  {
    |Arriving(s)| + s.working + match s.at[s.alone.value] case Asleep => 2 case Woken => 1 case _ => 0
  }

  lemma FindingItHeldComesDown(s: State, task: Task)
    requires Sound(s) && s.alone.Some? && task in Arriving(s)
    ensures var after := s.(at := s.at[task := Waiting(s.alone.value)]);
      after.alone.value in after.at && ToGo(after) == ToGo(s) - 1
  {
    var after := s.(at := s.at[task := Waiting(s.alone.value)]);
    assert Arriving(after) == Arriving(s) - {task};
  }

  lemma LeavingComesDown(s: State, task: Task)
    requires Sound(s) && s.alone.Some? && task in s.at && s.at[task].Working?
    ensures var after := Leave(s, task);
      after.alone == s.alone && after.alone.value in after.at && ToGo(after) < ToGo(s)
  {
    assert Arriving(Leave(s, task)) == Arriving(s);
  }

  lemma WakingComesDown(s: State, task: Task)
    requires Sound(s) && s.alone.Some? && task in s.at && s.at[task].Woken?
    ensures var after := s.(at := s.at[task := Alone]);
      after.alone.value in after.at && ToGo(after) < ToGo(s)
  {
    assert Arriving(s.(at := s.at[task := Alone])) == Arriving(s);
  }

  /** Held, every step either opens the gate or brings that nearer. */
  lemma TheDrainComesDown(s: State, step: Step)
    requires Sound(s) && Possible(s, step) && !CallThrows(step) && s.alone.Some?
    ensures var after := Next(s, step);
      && Sound(after)
      && if step == End(s.alone.value) then s.at[s.alone.value].Alone? && after.alone.None?
         else after.alone == s.alone && 0 <= ToGo(after) < ToGo(s)
  {
    NextIsSound(s, step);
    match step
    case Arrive(task, _) => FindingItHeldComesDown(s, task);
    case Resume(task, _) => FindingItHeldComesDown(s, task);
    case Wake(task) => WakingComesDown(s, task);
    case End(task) =>
      if s.at[task].Working? {
        LeavingComesDown(s, task);
      }
  }

  /** So however the steps fall, a gate that stays held comes to where only its
      holder's ending is left: a held stretch is no longer than what was to go. */
  lemma {:induction false} TheDrainEnds(s: State, steps: seq<Step>, after: State)
    requires Sound(s) && HeldThroughout(s, steps, after)
    ensures Sound(after) && after.alone == s.alone
    ensures |steps| + ToGo(after) <= ToGo(s) && ToGo(after) >= 0
    ensures Bodies(after) <= Bodies(s) && after.working <= s.working
    decreases |steps|
  {
    if steps != [] {
      NothingStartsWhileHeld(s, steps[0]);
      TheDrainComesDown(s, steps[0]);
      TheDrainEnds(Next(s, steps[0]), steps[1..], after);
    }
  }

  /** Whoever sleeps does run: while the holder is not running alone a step that
      keeps the gate can be taken, and of such steps there are only so many. */
  lemma WhoeverSleepsRuns(s: State, steps: seq<Step>, after: State)
    requires Sound(s) && HeldThroughout(s, steps, after)
    ensures |steps| <= ToGo(s)
    ensures s.alone.value in after.at
    ensures after.at[s.alone.value].Alone?
            || exists step :: Possible(after, step) && !CallThrows(step) && Next(after, step).alone == s.alone
  {
    TheDrainEnds(s, steps, after);
    var step := HolderMoves(after);
  }

  /** Whoever has arrived and is not finished, somebody can move. */
  lemma NeverStuck(s: State, task: Task) returns (step: Step)
    requires Sound(s) && task in s.at && !s.at[task].Absent? && !s.at[task].Finished?
    ensures Possible(s, step) && !CallThrows(step) && !step.Arrive?
  {
    match s.at[task]
    case Waiting(run) =>
      if run in s.settled {
        step := Resume(task, false);
      } else {
        step := HolderMoves(s);
      }
    case Working => step := End(task);
    case Alone => step := End(task);
    case _ => step := HolderMoves(s);
  }

  lemma HolderMoves(s: State) returns (step: Step)
    requires Sound(s) && s.alone.Some?
    ensures Possible(s, step) && !CallThrows(step) && !step.Arrive?
  {
    var holder := s.alone.value;
    if s.at[holder].Asleep? {
      var other :| other in Bodies(s);
      step := End(other);
    } else if s.at[holder].Woken? {
      step := Wake(holder);
    } else {
      step := End(holder);
    }
  }

  // ------------------------------ work that throws instead of answering

  /** An async body that throws before its first await, entered on an idle gate,
      has by then only answered a promise: the gate is taken, its run ends like
      any other, and the gate is open again. */
  lemma AnAsyncBodyThatThrowsOpensTheGate(s: State, task: Task, resumed: bool)
    requires Sound(s) && EntersAtOnce(s, task)
    requires Possible(s, if resumed then Resume(task, false) else Arrive(task, false))
    ensures var held := Next(s, if resumed then Resume(task, false) else Arrive(task, false));
      && Sound(held) && held.alone == Some(task) && Possible(held, End(task))
      && var after := Next(held, End(task));
      && Sound(after) && after.alone.None? && after.working == 0 && task in after.settled
  {
    var step := if resumed then Resume(task, false) else Arrive(task, false);
    NextIsSound(s, step);
    NextIsSound(Next(s, step), End(task));
  }

  /** The gate is taken by a run that has already ended: it can never open. */
  ghost predicate Wedged(s: State) {
    && s.alone.Some? && s.alone.value in s.settled
    && forall task :: task in s.at ==> s.at[task].Absent? || s.at[task].Waiting? || s.at[task].Finished?
  }

  lemma AThrowingCallWedges(s: State, step: Step)
    requires Sound(s) && Possible(s, step) && CallThrows(step)
    ensures Wedged(Next(s, step))
  {
    assert forall task :: task in s.at && s.at[task].Working? ==> task in Bodies(s);
  }

  lemma WedgedStaysWedged(s: State, step: Step)
    requires Wedged(s) && Possible(s, step)
    ensures Wedged(Next(s, step))
  {
  }

  lemma {:induction false} WedgedForGood(s: State, steps: seq<Step>, after: State)
    requires Wedged(s) && Runs(s, steps, after)
    ensures Wedged(after)
    decreases |steps|
  {
    if steps != [] {
      WedgedStaysWedged(s, steps[0]);
      WedgedForGood(Next(s, steps[0]), steps[1..], after);
    }
  }

  /** The gate keeps its promises exactly as long as no exclusive work, called on
      an idle gate, throws instead of answering a promise: such a call shuts it
      for good, and every other run leaves it sound. */
  lemma {:induction false} SoundUnlessACallThrows(s: State, steps: seq<Step>, after: State)
    requires Sound(s) && Runs(s, steps, after)
    ensures Sound(after) <==> forall step :: step in steps ==> !CallThrows(step)
    ensures !Sound(after) ==> Wedged(after)
    decreases |steps|
  {
    if steps != [] {
      assert steps[0] in steps;
      if CallThrows(steps[0]) {
        AThrowingCallWedges(s, steps[0]);
        WedgedForGood(Next(s, steps[0]), steps[1..], after);
      } else {
        NextIsSound(s, steps[0]);
        SoundUnlessACallThrows(Next(s, steps[0]), steps[1..], after);
        assert forall step :: step in steps <==> step == steps[0] || step in steps[1..];
      }
    }
  }

  // ------------------------------------------------------- the gate itself

  /** The closure's own variables, and where its callers stand. */
  class AyqGate {
    var kinds: map<Task, Kind>
    var at: map<Task, Position>
    var working: int
    var alone: Option<Task>
    var whenIdle: seq<Task>
    var settled: set<Task>

    function Seen(): State
      reads this
    {
      State(kinds, at, working, alone, whenIdle, settled)
    }

    constructor (kinds: map<Task, Kind>)
      ensures Seen() == Initial(kinds)
    {
      this.kinds := kinds;
      this.at := map task | task in kinds :: Absent;
      this.working := 0;
      this.alone := None;
      this.whenIdle := [];
      this.settled := {};
      new;
    }

    /** `shared` from its call, or from its await, to the next await. */
    method SharedStretch(task: Task, resumed: bool)
      requires task in kinds && kinds[task].Shared?
      requires Possible(Seen(), if resumed then Resume(task, false) else Arrive(task, false))
      modifies this
      ensures Seen() == Next(old(Seen()), if resumed then Resume(task, false) else Arrive(task, false))
    {
      if alone.Some? {
        at := at[task := Waiting(alone.value)];
        return;
      }
      working := working + 1;
      at := at[task := Working];
    }

    /** The `finally` of a shared body. */
    method SharedEnd(task: Task)
      requires Possible(Seen(), End(task)) && at[task].Working?
      modifies this
      ensures Seen() == Next(old(Seen()), End(task))
    {
      working := working - 1;
      at := at[task := Finished];
      if working == 0 {
        at := Woke(at, whenIdle);
        whenIdle := [];
      }
    }

    /** `exclusive` from its call, or from its await, to the next await; an entry
        on an idle gate runs the body as far as its first await. */
    method ExclusiveStretch(task: Task, resumed: bool, callThrows: bool)
      requires task in kinds && kinds[task].Exclusive?
      requires Possible(Seen(), if resumed then Resume(task, callThrows) else Arrive(task, callThrows))
      modifies this
      ensures Seen() == Next(old(Seen()), if resumed then Resume(task, callThrows) else Arrive(task, callThrows))
    {
      if alone.Some? {
        at := at[task := Waiting(alone.value)];
        return;
      }
      if working > 0 {
        whenIdle := whenIdle + [task];
        at := at[task := Asleep];
      } else {
        at := at[task := Alone];
        if callThrows {
          alone := None;
          at := at[task := Finished];
          settled := settled + {task};
        }
      }
      alone := Some(task);
    }

    method ExclusiveWake(task: Task)
      requires Possible(Seen(), Wake(task))
      modifies this`at
      ensures Seen() == Next(old(Seen()), Wake(task))
    {
      at := at[task := Alone];
    }

    /** The `finally` of an exclusive body. */
    method ExclusiveEnd(task: Task)
      requires Possible(Seen(), End(task)) && at[task].Alone?
      modifies this
      ensures Seen() == Next(old(Seen()), End(task))
    {
      alone := None;
      at := at[task := Finished];
      settled := settled + {task};
    }
  }
}
