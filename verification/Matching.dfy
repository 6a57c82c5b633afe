/** Matching expected payments to transactions (ayq-match.ts): what a pair
    must share, which pairs are beyond doubt, and the greedy pass that gives every
    occurrence at most one transaction. */
module Matching {
  import opened Lists
  import opened Recurrence
  import Calendar
  import Strings

  datatype Candidate = Candidate(
    transactionId: string,
    date: int,
    amountCents: int,
    payee: Option<string>,
    counterpartyKey: Option<string>,
    mandateId: Option<string>)

  datatype EvidenceCode = SameCounterparty | SameMandate | SameAmount | AmountWithinTenth

  datatype Found = Found(evidence: seq<EvidenceCode>, identified: bool, exact: bool, daysApart: nat)

  datatype RecordKey = RecordKey(key: Option<string>, mandateId: Option<string>)

  type OccurrenceKey = (string, int)

  datatype Input = Input(
    occurrences: seq<Occurrence>,
    recordKeys: map<string, RecordKey>,
    candidates: seq<Candidate>,
    taken: set<string>,
    refused: map<OccurrenceKey, set<string>>)

  datatype Proposal = Proposal(
    recordId: string,
    dueDate: int,
    recordName: string,
    expectedDate: int,
    expectedAmountCents: int,
    transactionId: string,
    transactionDate: int,
    transactionPayee: Option<string>,
    transactionAmountCents: int,
    daysApart: nat,
    evidence: seq<EvidenceCode>,
    confident: bool)

  datatype Window = Window(from: int, through: int)

  const MATCH_WINDOW_DAYS: nat := 7
  const MATCH_OFFER_DAYS: nat := 14

  function AutomaticMatchWindow(expected: int): Window {
    Window(expected - MATCH_WINDOW_DAYS, expected + MATCH_WINDOW_DAYS)
  }

  function Signed(one: Occurrence): int {
    if one.kind.Income? then one.amountCents else -one.amountCents
  }

  function Sign(n: int): int {
    if n > 0 then 1 else if n < 0 then -1 else 0
  }

  function Abs(n: int): nat {
    if n < 0 then -n else n
  }

  predicate Agrees(known: Option<string>, held: Option<string>) {
    known.Some? && held == known
  }

  /** What a pair has in common; `None` when it is not worth offering. A tenth of
      the amount is compared in whole cents. */
  function EvidenceFor(one: Occurrence, candidate: Candidate, record: RecordKey): Option<Found> {
    var expected := Signed(one);
    var daysApart := Abs(candidate.date - one.effectiveDate);
    var keyAgrees := Agrees(record.key, candidate.counterpartyKey);
    var mandateAgrees := Agrees(record.mandateId, candidate.mandateId);
    var exact := candidate.amountCents == expected;
    if Sign(expected) != Sign(candidate.amountCents) then None
    else if daysApart > MATCH_OFFER_DAYS then None
    else if !exact && 10 * Abs(candidate.amountCents - expected) > Abs(expected) then None
    else if !(keyAgrees || mandateAgrees) && !exact then None
    else Some(Found(
      (if keyAgrees then [SameCounterparty] else []) + (if mandateAgrees then [SameMandate] else [])
      + (if exact then [SameAmount] else [AmountWithinTenth]),
      keyAgrees || mandateAgrees, exact, daysApart))
  }

  predicate Qualifies(found: Found, window: Window, candidate: Candidate) {
    found.identified && found.exact && candidate.date >= window.from && candidate.date <= window.through
  }

  function KeyOf(one: Occurrence): OccurrenceKey {
    (one.recordId, one.dueDate)
  }

  function RecordKeyOf(input: Input, recordId: string): RecordKey {
    if recordId in input.recordKeys then input.recordKeys[recordId] else RecordKey(None, None)
  }

  function Refused(input: Input, one: Occurrence): set<string> {
    if KeyOf(one) in input.refused then input.refused[KeyOf(one)] else {}
  }

  function Common(input: Input, one: Occurrence, candidate: Candidate): Option<Found> {
    EvidenceFor(one, candidate, RecordKeyOf(input, one.recordId))
  }

  /** A pair an automatic match could be made of. */
  predicate Qualifying(input: Input, one: Occurrence, candidate: Candidate) {
    && candidate.transactionId !in input.taken
    && candidate.transactionId !in Refused(input, one)
    && Common(input, one, candidate).Some?
    && Qualifies(Common(input, one, candidate).value, AutomaticMatchWindow(one.effectiveDate), candidate)
  }

  // ------------------------------------------------- how many there are

  datatype Pair = Pair(key: OccurrenceKey, transactionId: string)

  function PairsOf(input: Input, one: Occurrence, candidates: seq<Candidate>): seq<Pair> {
    if candidates == [] then []
    else (if Qualifying(input, one, candidates[0]) then [Pair(KeyOf(one), candidates[0].transactionId)] else [])
         + PairsOf(input, one, candidates[1..])
  }

  function AllPairs(input: Input, occurrences: seq<Occurrence>): seq<Pair> {
    if occurrences == [] then []
    else PairsOf(input, occurrences[0], input.candidates) + AllPairs(input, occurrences[1..])
  }

  function Tally(input: Input): seq<Pair> {
    AllPairs(input, input.occurrences)
  }

  function PerOccurrence(pairs: seq<Pair>, key: OccurrenceKey): nat {
    if pairs == [] then 0
    else (if pairs[0].key == key then 1 else 0) + PerOccurrence(pairs[1..], key)
  }

  function PerTransaction(pairs: seq<Pair>, transactionId: string): nat {
    if pairs == [] then 0
    else (if pairs[0].transactionId == transactionId then 1 else 0) + PerTransaction(pairs[1..], transactionId)
  }

  lemma {:induction false} CountsAdd(a: seq<Pair>, b: seq<Pair>, key: OccurrenceKey, transactionId: string)
    ensures PerOccurrence(a + b, key) == PerOccurrence(a, key) + PerOccurrence(b, key)
    ensures PerTransaction(a + b, transactionId) == PerTransaction(a, transactionId) + PerTransaction(b, transactionId)
  {
    if a == [] {
      assert a + b == b;
    } else {
      CountsAdd(a[1..], b, key, transactionId);
      assert (a + b)[1..] == a[1..] + b;
    }
  }

  lemma PairsOfStep(input: Input, one: Occurrence, first: Candidate, rest: seq<Candidate>)
    ensures PairsOf(input, one, [first] + rest)
            == (if Qualifying(input, one, first) then [Pair(KeyOf(one), first.transactionId)] else []) + PairsOf(input, one, rest)
  {
    assert ([first] + rest)[1..] == rest;
  }

  lemma {:induction false} PairsOfConcat(input: Input, one: Occurrence, a: seq<Candidate>, b: seq<Candidate>)
    ensures PairsOf(input, one, a + b) == PairsOf(input, one, a) + PairsOf(input, one, b)
  {
    if a == [] {
      assert a + b == b;
    } else {
      var first, rest := a[0], a[1..];
      assert a == [first] + rest && a + b == [first] + (rest + b);
      PairsOfConcat(input, one, rest, b);
      PairsOfStep(input, one, first, rest);
      PairsOfStep(input, one, first, rest + b);
    }
  }

  lemma {:induction false} AllPairsConcat(input: Input, a: seq<Occurrence>, b: seq<Occurrence>)
    ensures AllPairs(input, a + b) == AllPairs(input, a) + AllPairs(input, b)
  {
    if a == [] {
      assert a + b == b;
    } else {
      AllPairsConcat(input, a[1..], b);
      assert (a + b)[1..] == a[1..] + b;
    }
  }

  function CountIn<K>(counts: map<K, nat>, key: K): nat {
    if key in counts then counts[key] else 0
  }

  ghost predicate CountsOf(pairs: seq<Pair>, perOccurrence: map<OccurrenceKey, nat>, perTransaction: map<string, nat>) {
    && (forall key :: CountIn(perOccurrence, key) == PerOccurrence(pairs, key))
    && (forall id :: CountIn(perTransaction, id) == PerTransaction(pairs, id))
  }

  lemma CountOneMore(pairs: seq<Pair>, pair: Pair, perOccurrence: map<OccurrenceKey, nat>, perTransaction: map<string, nat>)
    requires CountsOf(pairs, perOccurrence, perTransaction)
    ensures CountsOf(pairs + [pair],
              perOccurrence[pair.key := CountIn(perOccurrence, pair.key) + 1],
              perTransaction[pair.transactionId := CountIn(perTransaction, pair.transactionId) + 1])
  {
    forall key, id
      ensures PerOccurrence(pairs + [pair], key) == PerOccurrence(pairs, key) + if pair.key == key then 1 else 0
      ensures PerTransaction(pairs + [pair], id) == PerTransaction(pairs, id) + if pair.transactionId == id then 1 else 0
    {
      CountsAdd(pairs, [pair], key, id);
    }
  }

  /** Counts, for an occurrence and for a transaction alike, the pairs that would
      qualify were everything still open. */
  method Ambiguity(input: Input)
    returns (perOccurrence: map<OccurrenceKey, nat>, perTransaction: map<string, nat>)
    ensures CountsOf(Tally(input), perOccurrence, perTransaction)
  {
    perOccurrence, perTransaction := map[], map[];
    for i := 0 to |input.occurrences|
      invariant CountsOf(AllPairs(input, input.occurrences[..i]), perOccurrence, perTransaction)
    {
      var one := input.occurrences[i];
      var window := AutomaticMatchWindow(one.effectiveDate);
      ghost var before := AllPairs(input, input.occurrences[..i]);
      assert before + PairsOf(input, one, input.candidates[..0]) == before;
      for j := 0 to |input.candidates|
        invariant CountsOf(before + PairsOf(input, one, input.candidates[..j]), perOccurrence, perTransaction)
      {
        var candidate := input.candidates[j];
        ghost var pairs := before + PairsOf(input, one, input.candidates[..j]);
        PairsOfOneMore(input, one, j, before);
        if candidate.transactionId in input.taken { continue; }
        if candidate.transactionId in Refused(input, one) { continue; }
        var found := Common(input, one, candidate);
        if found.None? || !Qualifies(found.value, window, candidate) { continue; }
        CountOneMore(pairs, Pair(KeyOf(one), candidate.transactionId), perOccurrence, perTransaction);
        perOccurrence := perOccurrence[KeyOf(one) := CountIn(perOccurrence, KeyOf(one)) + 1];
        perTransaction := perTransaction[candidate.transactionId := CountIn(perTransaction, candidate.transactionId) + 1];
      }
      assert input.candidates[..|input.candidates|] == input.candidates;
      AllPairsOneMore(input, i);
    }
    assert input.occurrences[..|input.occurrences|] == input.occurrences;
  }

  lemma PairsOfOneMore(input: Input, one: Occurrence, j: nat, before: seq<Pair>)
    requires j < |input.candidates|
    ensures var pairs := before + PairsOf(input, one, input.candidates[..j]);
      before + PairsOf(input, one, input.candidates[..j + 1]) ==
        if Qualifying(input, one, input.candidates[j])
        then pairs + [Pair(KeyOf(one), input.candidates[j].transactionId)] else pairs
  {
    var candidate := input.candidates[j];
    PairsOfConcat(input, one, input.candidates[..j], [candidate]);
    assert input.candidates[..j + 1] == input.candidates[..j] + [candidate];
    assert PairsOf(input, one, [candidate]) ==
           if Qualifying(input, one, candidate) then [Pair(KeyOf(one), candidate.transactionId)] else [];
  }

  lemma AllPairsOneMore(input: Input, i: nat)
    requires i < |input.occurrences|
    ensures AllPairs(input, input.occurrences[..i + 1]) ==
            AllPairs(input, input.occurrences[..i]) + PairsOf(input, input.occurrences[i], input.candidates)
  {
    var one := input.occurrences[i];
    AllPairsConcat(input, input.occurrences[..i], [one]);
    assert input.occurrences[..i + 1] == input.occurrences[..i] + [one];
    assert AllPairs(input, [one]) == PairsOf(input, one, input.candidates) + [];
  }

  // ------------------------------------------------------- the greedy pass

  function ProposalFor(input: Input, tally: seq<Pair>, one: Occurrence, candidate: Candidate): Option<Proposal> {
    var found := Common(input, one, candidate);
    if found.None? then None
    else Some(Proposal(
      one.recordId, one.dueDate, one.name, one.effectiveDate, one.amountCents,
      candidate.transactionId, candidate.date, candidate.payee, candidate.amountCents,
      found.value.daysApart, found.value.evidence,
      && Qualifies(found.value, AutomaticMatchWindow(one.effectiveDate), candidate)
      && PerOccurrence(tally, KeyOf(one)) == 1
      && PerTransaction(tally, candidate.transactionId) == 1))
  }

  /** Certainty decides first, then fewer days apart, and then the lesser id. */
  predicate Better(one: Proposal, than: Proposal) {
    if one.confident != than.confident then one.confident
    else if one.daysApart != than.daysApart then one.daysApart < than.daysApart
    else Strings.TextLess(one.transactionId, than.transactionId)
  }

  predicate Open(input: Input, one: Occurrence, candidate: Candidate, used: set<string>) {
    candidate.transactionId !in used && candidate.transactionId !in Refused(input, one)
  }

  function Best(input: Input, tally: seq<Pair>, one: Occurrence, candidates: seq<Candidate>, used: set<string>): Option<Proposal> {
    if candidates == [] then None
    else
      var n := |candidates| - 1;
      var best := Best(input, tally, one, candidates[..n], used);
      if !Open(input, one, candidates[n], used) then best
      else
        var proposal := ProposalFor(input, tally, one, candidates[n]);
        if proposal.Some? && (best.None? || Better(proposal.value, best.value)) then proposal else best
  }

  function Assign(input: Input, tally: seq<Pair>, occurrences: seq<Occurrence>, used: set<string>): seq<Proposal> {
    if occurrences == [] then []
    else
      var best := Best(input, tally, occurrences[0], input.candidates, used);
      if best.None? then Assign(input, tally, occurrences[1..], used)
      else [best.value] + Assign(input, tally, occurrences[1..], used + {best.value.transactionId})
  }

  predicate Sooner(a: Occurrence, b: Occurrence) {
    a.effectiveDate < b.effectiveDate
  }

  function Proposals(input: Input): seq<Proposal> {
    Assign(input, Tally(input), Sort(Sooner, input.occurrences), input.taken)
  }

  method BestFor(input: Input, ghost tally: seq<Pair>, perOccurrence: map<OccurrenceKey, nat>, perTransaction: map<string, nat>,
                 one: Occurrence, used: set<string>) returns (best: Option<Proposal>)
    requires CountsOf(tally, perOccurrence, perTransaction)
    ensures best == Best(input, tally, one, input.candidates, used)
  {
    var window := AutomaticMatchWindow(one.effectiveDate);
    best := None;
    for j := 0 to |input.candidates|
      invariant best == Best(input, tally, one, input.candidates[..j], used)
    {
      var candidate := input.candidates[j];
      assert input.candidates[..j + 1][..j] == input.candidates[..j];
      if candidate.transactionId in used { continue; }
      if candidate.transactionId in Refused(input, one) { continue; }
      var found := Common(input, one, candidate);
      if found.None? { continue; }
      var proposal := Proposal(
        one.recordId, one.dueDate, one.name, one.effectiveDate, one.amountCents,
        candidate.transactionId, candidate.date, candidate.payee, candidate.amountCents,
        found.value.daysApart, found.value.evidence,
        && Qualifies(found.value, window, candidate)
        && CountIn(perOccurrence, KeyOf(one)) == 1
        && CountIn(perTransaction, candidate.transactionId) == 1);
      assert Some(proposal) == ProposalFor(input, tally, one, candidate);
      if best.None? || Better(proposal, best.value) { best := Some(proposal); }
    }
    assert input.candidates[..|input.candidates|] == input.candidates;
  }

  method ProposeMatches(input: Input) returns (proposals: seq<Proposal>)
    ensures proposals == Proposals(input)
  {
    var used := input.taken;
    var perOccurrence, perTransaction := Ambiguity(input);
    var inOrder := Sort(Sooner, input.occurrences);
    ghost var tally := Tally(input);
    proposals := [];
    for i := 0 to |inOrder|
      invariant proposals + Assign(input, tally, inOrder[i..], used) == Proposals(input)
    {
      assert inOrder[i..][0] == inOrder[i] && inOrder[i..][1..] == inOrder[i + 1..];
      var best := BestFor(input, tally, perOccurrence, perTransaction, inOrder[i], used);
      if best.Some? {
        ghost var rest := Assign(input, tally, inOrder[i + 1..], used + {best.value.transactionId});
        assert proposals + ([best.value] + rest) == (proposals + [best.value]) + rest;
        used := used + {best.value.transactionId};
        proposals := proposals + [best.value];
      }
    }
  }
}
