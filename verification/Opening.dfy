/** Opening the budget once at a time (openBudget and closeBudget in
    ayq-engine.ts). A flight is one run of the opening; its steps are where it
    ends and where the callback registered on it runs. */
module Opening {
  import opened Lists

  type Flight = nat
  type Caller = nat

  datatype Phase = InFlight | Succeeded | Failed | Cleared

  datatype State = State(
    loaded: Option<Flight>,
    opening: Option<Flight>,
    flights: seq<Phase>,
    awaiting: map<Caller, Flight>)

  datatype Step = Call(caller: Caller) | Succeed(flight: Flight) | Fail(flight: Flight) | Clear(flight: Flight) | Close

  const INITIAL: State := State(None, None, [], map[])

  predicate Possible(s: State, step: Step) {
    match step
    case Call(_) => true
    case Succeed(flight) => flight < |s.flights| && s.flights[flight].InFlight?
    case Fail(flight) => flight < |s.flights| && s.flights[flight].InFlight?
    case Clear(flight) => flight < |s.flights| && (s.flights[flight].Succeeded? || s.flights[flight].Failed?)
    case Close => s.loaded.Some?
  }

  function Next(s: State, step: Step): State
    requires Possible(s, step)
  {
    match step
    case Call(caller) =>
      if s.loaded.Some? then s
      else if s.opening.None? then
        State(None, Some(|s.flights|), s.flights + [InFlight], s.awaiting[caller := |s.flights|])
      else s.(awaiting := s.awaiting[caller := s.opening.value])
    case Succeed(flight) => s.(flights := s.flights[flight := Succeeded], loaded := Some(flight))
    case Fail(flight) => s.(flights := s.flights[flight := Failed])
    case Clear(flight) => s.(flights := s.flights[flight := Cleared], opening := None)
    case Close => s.(loaded := None)
  }

  ghost predicate Runs(s: State, steps: seq<Step>, after: State)
    decreases |steps|
  {
    if steps == [] then after == s
    else Possible(s, steps[0]) && Runs(Next(s, steps[0]), steps[1..], after)
  }

  /** Only the flight remembered as opening is not yet over and done with. */
  ghost predicate Sound(s: State) {
    && (forall flight :: 0 <= flight < |s.flights| && !s.flights[flight].Cleared? ==> s.opening == Some(flight))
    && (s.opening.Some? ==> s.opening.value < |s.flights| && !s.flights[s.opening.value].Cleared?)
    && (forall caller :: caller in s.awaiting ==> s.awaiting[caller] < |s.flights|)
    && (s.opening.Some? && !s.flights[s.opening.value].Succeeded? ==> s.loaded.None?)
  }

  lemma NextIsSound(s: State, step: Step)
    requires Sound(s) && Possible(s, step)
    ensures Sound(Next(s, step))
  {
  }

  lemma {:induction false} EveryRunIsSound(s: State, steps: seq<Step>, after: State)
    requires Sound(s) && Runs(s, steps, after)
    ensures Sound(after)
    decreases |steps|
  {
    if steps != [] {
      NextIsSound(s, steps[0]);
      EveryRunIsSound(Next(s, steps[0]), steps[1..], after);
    }
  }

  /** This caller waits for an open that has not ended. */
  predicate AwaitsOpen(s: State, caller: Caller) {
    caller in s.awaiting && s.awaiting[caller] < |s.flights| && s.flights[s.awaiting[caller]].InFlight?
  }

  /** At most one open is in flight, and everybody still waiting for an open that
      has not ended waits for that one. */
  lemma OneOpenAtATime(steps: seq<Step>, s: State)
    requires Runs(INITIAL, steps, s)
    ensures forall a, b :: 0 <= a < |s.flights| && 0 <= b < |s.flights| && s.flights[a].InFlight? && s.flights[b].InFlight? ==> a == b
    ensures forall x, y :: AwaitsOpen(s, x) && AwaitsOpen(s, y) ==> s.awaiting[x] == s.awaiting[y]
  {
    EveryRunIsSound(INITIAL, steps, s);
  }

  /** Until a failed open has been cleared nothing else happens to any open:
      whoever calls joins it. */
  lemma {:induction false} UntilItIsCleared(s: State, flight: Flight, steps: seq<Step>, after: State)
    requires Sound(s) && flight < |s.flights| && s.flights[flight].Failed?
    requires Runs(s, steps, after) && Clear(flight) !in steps
    ensures Sound(after) && after.flights == s.flights && after.loaded.None?
    decreases |steps|
  {
    if steps != [] {
      NextIsSound(s, steps[0]);
      UntilItIsCleared(Next(s, steps[0]), flight, steps[1..], after);
    }
  }

  /** A failed open is not held against the next caller: whatever happens first,
      it can be cleared, and once it is, a call starts another. */
  lemma AFailureCanBeTriedAgain(s: State, flight: Flight, steps: seq<Step>, after: State, caller: Caller)
    requires Sound(s) && Possible(s, Fail(flight))
    requires Runs(Next(s, Fail(flight)), steps, after) && Clear(flight) !in steps
    ensures Possible(after, Clear(flight)) && after.flights == s.flights[flight := Failed]
    ensures var again := Next(Next(after, Clear(flight)), Call(caller));
      again.flights == s.flights[flight := Cleared] + [InFlight] && again.awaiting[caller] == |s.flights|
  {
    NextIsSound(s, Fail(flight));
    UntilItIsCleared(Next(s, Fail(flight)), flight, steps, after);
  }
}
