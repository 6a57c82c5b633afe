/** Which candidate an occurrence is proposed (ayq-match.ts), told of dates, ids
    and cents: the surest of those left to it, then the nearest, then the first by
    id; and of what is left, earlier occurrences come before later ones. */
module NearestMatch {
  import opened Lists
  import opened Strings
  import opened Recurrence
  import opened Matching
  import opened MatchingLaws

  // ---------------------------------------------------- what may be offered

  function Distance(one: Occurrence, candidate: Candidate): nat {
    if candidate.date < one.effectiveDate then one.effectiveDate - candidate.date else candidate.date - one.effectiveDate
  }

  /** The counterparty or the mandate is known and is the candidate's. */
  predicate Identified(input: Input, one: Occurrence, candidate: Candidate) {
    one.recordId in input.recordKeys
    && var record := input.recordKeys[one.recordId];
       (record.key.Some? && candidate.counterpartyKey == record.key)
       || (record.mandateId.Some? && candidate.mandateId == record.mandateId)
  }

  /** What the occurrence would move, money in above nought. */
  function ExpectedCents(one: Occurrence): int {
    match one.kind
    case Income => one.amountCents
    case Expense => 0 - one.amountCents
  }

  /** Worth offering: on the same side of nought, a fortnight away at most, and to
      the cent, or identified and no more than a tenth of what is expected off. */
  ghost predicate WorthOffering(input: Input, one: Occurrence, candidate: Candidate) {
    var expected, got := ExpectedCents(one), candidate.amountCents;
    && (expected > 0 <==> got > 0) && (expected < 0 <==> got < 0)
    && Distance(one, candidate) <= 14
    && (got == expected
        || (Identified(input, one, candidate)
            && 10 * (got - expected) <= (if expected < 0 then -expected else expected)
            && 10 * (expected - got) <= (if expected < 0 then -expected else expected)))
  }

  lemma OfferedIsWorthIt(input: Input, one: Occurrence, candidate: Candidate)
    ensures Common(input, one, candidate).Some? <==> WorthOffering(input, one, candidate)
    ensures Common(input, one, candidate).Some? ==>
      var found := Common(input, one, candidate).value;
      && found.daysApart == Distance(one, candidate)
      && (found.identified <==> Identified(input, one, candidate))
      && (found.exact <==> candidate.amountCents == ExpectedCents(one))
  {
    var record := RecordKeyOf(input, one.recordId);
    assert Signed(one) == ExpectedCents(one);
    assert Abs(candidate.date - one.effectiveDate) == Distance(one, candidate);
    assert Agrees(record.key, candidate.counterpartyKey) || Agrees(record.mandateId, candidate.mandateId) <==> Identified(input, one, candidate);
  }

  /** What a proposal says of its pair. */
  ghost predicate Says(p: Proposal, input: Input, one: Occurrence, candidate: Candidate) {
    && p.recordId == one.recordId && p.dueDate == one.dueDate && p.recordName == one.name
    && p.expectedDate == one.effectiveDate && p.expectedAmountCents == one.amountCents
    && p.transactionId == candidate.transactionId && p.transactionDate == candidate.date
    && p.transactionPayee == candidate.payee && p.transactionAmountCents == candidate.amountCents
    && p.daysApart == Distance(one, candidate)
    && (p.confident <==> OnlyPair(input, one, candidate))
    && SaysWhy(p.evidence, input, one, candidate)
  }

  ghost predicate SaysWhy(evidence: seq<EvidenceCode>, input: Input, one: Occurrence, candidate: Candidate) {
    && (SameCounterparty in evidence <==>
          one.recordId in input.recordKeys && input.recordKeys[one.recordId].key.Some?
          && candidate.counterpartyKey == input.recordKeys[one.recordId].key)
    && (SameMandate in evidence <==>
          one.recordId in input.recordKeys && input.recordKeys[one.recordId].mandateId.Some?
          && candidate.mandateId == input.recordKeys[one.recordId].mandateId)
    && (SameAmount in evidence <==> candidate.amountCents == ExpectedCents(one))
    && (AmountWithinTenth in evidence <==> candidate.amountCents != ExpectedCents(one))
  }

  lemma EvidenceSaysWhy(input: Input, one: Occurrence, candidate: Candidate)
    requires Common(input, one, candidate).Some?
    ensures SaysWhy(Common(input, one, candidate).value.evidence, input, one, candidate)
  {
    assert Signed(one) == ExpectedCents(one);
  }

  // -------------------------------------------------- one occurrence's turn

  /** A candidate there still is for the occurrence: not spent, never refused for
      it, and worth offering. */
  ghost predicate MayHave(input: Input, one: Occurrence, spent: set<string>, candidate: Candidate) {
    && candidate in input.candidates && candidate.transactionId !in spent
    && ((one.recordId, one.dueDate) in input.refused ==> candidate.transactionId !in input.refused[(one.recordId, one.dueDate)])
    && WorthOffering(input, one, candidate)
  }

  /** Nothing certain gives way to an offer, nothing nearer to what is as certain
      and farther, and nothing with an earlier id to what is as near. */
  ghost predicate NonePassedOver(input: Input, one: Occurrence, spent: set<string>, candidate: Candidate) {
    forall other :: MayHave(input, one, spent, other) ==> GoesBefore(input, one, candidate, other)
  }

  ghost predicate GoesBefore(input: Input, one: Occurrence, candidate: Candidate, other: Candidate) {
    && (OnlyPair(input, one, other) ==> OnlyPair(input, one, candidate))
    && ((OnlyPair(input, one, other) <==> OnlyPair(input, one, candidate)) ==>
          && Distance(one, candidate) <= Distance(one, other)
          && (Distance(one, candidate) == Distance(one, other) ==> !TextLess(other.transactionId, candidate.transactionId)))
  }

  lemma OfferedSays(input: Input, one: Occurrence, spent: set<string>, candidate: Candidate)
    requires WellFormed(input) && one in input.occurrences && input.taken <= spent && candidate in input.candidates
    ensures MayHave(input, one, spent, candidate)
            <==> Open(input, one, candidate, spent) && ProposalFor(input, Tally(input), one, candidate).Some?
    ensures MayHave(input, one, spent, candidate) ==> Says(ProposalFor(input, Tally(input), one, candidate).value, input, one, candidate)
  {
    OfferedIsWorthIt(input, one, candidate);
    if MayHave(input, one, spent, candidate) {
      EvidenceSaysWhy(input, one, candidate);
      ConfidentIsOnlyPair(input, one, candidate, ProposalFor(input, Tally(input), one, candidate).value);
    }
  }

  /** What one occurrence gets of what is left, and that it gets something when
      there is anything. */
  ghost predicate Gets(input: Input, one: Occurrence, spent: set<string>, best: Option<Proposal>) {
    if best.None? then forall candidate :: !MayHave(input, one, spent, candidate)
    else exists candidate :: MayHave(input, one, spent, candidate) && Says(best.value, input, one, candidate)
                             && NonePassedOver(input, one, spent, candidate)
  }

  lemma TheNearestIsBest(input: Input, one: Occurrence, spent: set<string>)
    requires WellFormed(input) && one in input.occurrences && input.taken <= spent
    ensures Gets(input, one, spent, Best(input, Tally(input), one, input.candidates, spent))
  {
    var tally, candidates := Tally(input), input.candidates;
    var best := Best(input, tally, one, candidates, spent);
    BestIsBest(input, tally, one, candidates, spent);
    forall other | MayHave(input, one, spent, other)
      ensures Eligible(input, tally, one, candidates, spent, ProposalFor(input, tally, one, other).value)
    {
      OfferedSays(input, one, spent, other);
    }
    if best.Some? {
      var candidate :| candidate in candidates && Open(input, one, candidate, spent) && ProposalFor(input, tally, one, candidate) == best;
      OfferedSays(input, one, spent, candidate);
      forall other | MayHave(input, one, spent, other) ensures GoesBefore(input, one, candidate, other) {
        OfferedSays(input, one, spent, other);
        BetterGoesBefore(input, one, candidate, other, best.value, ProposalFor(input, tally, one, other).value);
      }
    }
  }

  lemma BetterGoesBefore(input: Input, one: Occurrence, candidate: Candidate, other: Candidate, p: Proposal, q: Proposal)
    requires Says(p, input, one, candidate) && Says(q, input, one, other) && (p == q || Better(p, q))
    ensures GoesBefore(input, one, candidate, other)
  {
    TextLessIsTotal(other.transactionId, candidate.transactionId);
  }

  // ------------------------------------------------------ one after another

  /** What these proposals spend on these occurrences. */
  function SpentOn(proposals: seq<Proposal>, occurrences: seq<Occurrence>): set<string> {
    set p | p in proposals && (exists one :: one in occurrences && KeyOf(one) == (p.recordId, p.dueDate)) :: p.transactionId
  }

  lemma OneMoreSpent(best: Option<Proposal>, later: seq<Proposal>, first: Occurrence, rest: seq<Occurrence>)
    requires best.Some? ==> (best.value.recordId, best.value.dueDate) == KeyOf(first)
    requires forall p :: p in later ==> (p.recordId, p.dueDate) != KeyOf(first)
    requires DistinctOccurrences([first] + rest)
    ensures var all := if best.None? then later else [best.value] + later;
      SpentOn(all, [first] + rest) == (if best.None? then {} else {best.value.transactionId}) + SpentOn(later, rest)
  {
    var all := if best.None? then later else [best.value] + later;
    assert forall p :: p in all <==> (best.Some? && p == best.value) || p in later;
    assert forall one :: one in [first] + rest <==> one == first || one in rest;
    forall one | one in rest ensures KeyOf(one) != KeyOf(first) {
      var i :| 0 <= i < |rest| && rest[i] == one;
      assert KeyOf(([first] + rest)[0]) != KeyOf(([first] + rest)[i + 1]);
    }
  }

  /** Each of some occurrences gets its best of what those before it have left. */
  lemma {:induction false} AssignedInTurn(input: Input, tally: seq<Pair>, occurrences: seq<Occurrence>, used: set<string>, k: nat)
    requires DistinctCandidates(input.candidates) && DistinctOccurrences(occurrences) && k < |occurrences|
    ensures var all := Assign(input, tally, occurrences, used);
      var best := Best(input, tally, occurrences[k], input.candidates, used + SpentOn(all, occurrences[..k]));
      && (best.Some? ==> best.value in all)
      && (forall p :: p in all && (p.recordId, p.dueDate) == KeyOf(occurrences[k]) ==> best == Some(p))
  {
    var first, rest := occurrences[0], occurrences[1..];
    var best := Best(input, tally, first, input.candidates, used);
    var usedNext := if best.None? then used else used + {best.value.transactionId};
    var later := Assign(input, tally, rest, usedNext);
    AssignIsSound(input, tally, rest, usedNext);
    ProposalsOfTheRest(input, tally, occurrences, later);
    BestIsOf(input, tally, first, input.candidates, used);
    var all := Assign(input, tally, occurrences, used);
    assert all == if best.None? then later else [best.value] + later;
    if k == 0 {
      assert used + SpentOn(all, occurrences[..0]) == used;
    } else {
      AssignedInTurn(input, tally, rest, usedNext, k - 1);
      SpentBefore(best, later, occurrences, used, usedNext, k);
      assert rest[k - 1] == occurrences[k] && KeyOf(occurrences[0]) != KeyOf(occurrences[k]);
    }
  }

  lemma SpentBefore(best: Option<Proposal>, later: seq<Proposal>, occurrences: seq<Occurrence>, used: set<string>, usedNext: set<string>, k: nat)
    requires 0 < k < |occurrences| && DistinctOccurrences(occurrences)
    requires best.Some? ==> (best.value.recordId, best.value.dueDate) == KeyOf(occurrences[0])
    requires forall p :: p in later ==> (p.recordId, p.dueDate) != KeyOf(occurrences[0])
    requires usedNext == if best.None? then used else used + {best.value.transactionId}
    ensures var all := if best.None? then later else [best.value] + later;
      used + SpentOn(all, occurrences[..k]) == usedNext + SpentOn(later, occurrences[1..][..k - 1])
  {
    assert occurrences[..k] == [occurrences[0]] + occurrences[1..][..k - 1];
    OneMoreSpent(best, later, occurrences[0], occurrences[1..][..k - 1]);
  }

  lemma {:induction false} BestIsOf(input: Input, tally: seq<Pair>, one: Occurrence, candidates: seq<Candidate>, used: set<string>)
    ensures var best := Best(input, tally, one, candidates, used);
      best.Some? ==> (best.value.recordId, best.value.dueDate) == KeyOf(one)
  {
    if candidates != [] {
      BestIsOf(input, tally, one, candidates[..|candidates| - 1], used);
    }
  }

  // ------------------------------------------------------- the whole pass

  /** Its turn comes first: it is expected sooner, or the same day and listed first. */
  ghost predicate Earlier(occurrences: seq<Occurrence>, other: Occurrence, one: Occurrence) {
    other.effectiveDate < one.effectiveDate || (other.effectiveDate == one.effectiveDate && Precedes(occurrences, other, one))
  }

  /** What occurrences whose turn came first have been proposed. */
  ghost function SpentEarlier(input: Input, one: Occurrence): set<string> {
    set p | p in Proposals(input)
            && (exists other :: other in input.occurrences && Earlier(input.occurrences, other, one)
                                && other.recordId == p.recordId && other.dueDate == p.dueDate)
          :: p.transactionId
  }

  lemma DistinctPrecede(occurrences: seq<Occurrence>, a: Occurrence, b: Occurrence)
    requires DistinctOccurrences(occurrences) && a in occurrences && b in occurrences && a != b
    ensures Precedes(occurrences, a, b) <==> !Precedes(occurrences, b, a)
  {
    var i :| 0 <= i < |occurrences| && occurrences[i] == a;
    var j :| 0 <= j < |occurrences| && occurrences[j] == b;
    assert forall k :: 0 <= k < |occurrences| && occurrences[k] == a ==> k == i;
    assert forall k :: 0 <= k < |occurrences| && occurrences[k] == b ==> k == j;
  }

  /** Those before it in the order of the pass are those whose turn came first. */
  lemma TurnsAreInOrder(occurrences: seq<Occurrence>, k: nat, other: Occurrence)
    requires DistinctOccurrences(occurrences) && k < |occurrences|
    ensures other in Sort(Sooner, occurrences)[..k] <==>
            other in occurrences && Earlier(occurrences, other, Sort(Sooner, occurrences)[k])
  {
    var sorted := Sort(Sooner, occurrences);
    SortKeepsDistinct(Sooner, occurrences);
    var one := sorted[k];
    assert one in sorted;
    if other in occurrences && other != one {
      DistinctPrecede(occurrences, other, one);
      DistinctPrecede(sorted, other, one);
      SoonerIsAnOrder();
      if Earlier(occurrences, other, one) {
        SortIsStable(Sooner, occurrences, other, one);
      } else {
        SortIsStable(Sooner, occurrences, one, other);
      }
      PrecedesInPrefix(sorted, k, other);
    } else if other == one {
      NeverBeforeItself(occurrences, one);
      PrecedesInPrefix(sorted, k, other);
      NeverBeforeItself(sorted, one);
    } else {
      assert other in sorted[..k] ==> other in sorted;
    }
  }

  lemma NeverBeforeItself(occurrences: seq<Occurrence>, one: Occurrence)
    requires DistinctOccurrences(occurrences)
    ensures !Precedes(occurrences, one, one)
  {
  }

  lemma PrecedesInPrefix(sorted: seq<Occurrence>, k: nat, other: Occurrence)
    requires DistinctOccurrences(sorted) && k < |sorted|
    ensures Precedes(sorted, other, sorted[k]) <==> other in sorted[..k]
  {
    if other in sorted[..k] {
      var i :| 0 <= i < k && sorted[i] == other;
    }
  }

  /** Every occurrence in its turn gets the surest, then the nearest, then the
      first by id of what those before it have left, and nothing only when there
      is nothing it may have. */
  lemma EachGetsTheNearestLeft(input: Input, one: Occurrence) returns (got: Option<Proposal>)
    requires WellFormed(input) && one in input.occurrences
    ensures got.Some? ==> got.value in Proposals(input)
    ensures forall p :: p in Proposals(input) && p.recordId == one.recordId && p.dueDate == one.dueDate ==> got == Some(p)
    ensures Gets(input, one, input.taken + SpentEarlier(input, one), got)
  {
    var sorted := Sort(Sooner, input.occurrences);
    SortKeepsDistinct(Sooner, input.occurrences);
    var k :| 0 <= k < |sorted| && sorted[k] == one;
    forall other ensures other in sorted[..k] <==> other in input.occurrences && Earlier(input.occurrences, other, one) {
      TurnsAreInOrder(input.occurrences, k, other);
    }
    assert SpentOn(Proposals(input), sorted[..k]) == SpentEarlier(input, one);
    AssignedInTurn(input, Tally(input), sorted, input.taken, k);
    got := Best(input, Tally(input), one, input.candidates, input.taken + SpentEarlier(input, one));
    TheNearestIsBest(input, one, input.taken + SpentEarlier(input, one));
  }

  // ------------------------------------------------- what a sure pair comes to

  /** Proposed as beyond doubt. */
  ghost predicate IsSure(input: Input, one: Occurrence, candidate: Candidate) {
    exists p :: p in Proposals(input) && p.confident && p.recordId == one.recordId && p.dueDate == one.dueDate
                && p.transactionId == candidate.transactionId
  }

  /** A pair that is the only one for either of its two is proposed as such exactly
      when no occurrence whose turn came first has been proposed the transaction. */
  lemma OnlyPairIsProposedUnlessSpent(input: Input, one: Occurrence, candidate: Candidate)
    requires WellFormed(input) && one in input.occurrences && candidate in input.candidates && OnlyPair(input, one, candidate)
    ensures IsSure(input, one, candidate) <==> candidate.transactionId !in SpentEarlier(input, one)
  {
    var spent := input.taken + SpentEarlier(input, one);
    var got := EachGetsTheNearestLeft(input, one);
    OfferedIsWorthIt(input, one, candidate);
    assert MayHave(input, one, spent, candidate) <==> candidate.transactionId !in SpentEarlier(input, one);
    if got.Some? {
      var c :| MayHave(input, one, spent, c) && Says(got.value, input, one, c) && NonePassedOver(input, one, spent, c);
      if MayHave(input, one, spent, candidate) {
        assert GoesBefore(input, one, c, candidate);
        assert c == candidate;
        assert got.value.confident;
      }
      if IsSure(input, one, candidate) {
        SameCandidate(input.candidates, c, candidate);
      }
    }
  }

  /** Which is not always: an offer of a transaction to an occurrence expected
      sooner takes it from the one it is beyond doubt for, and nothing is sure. */
  lemma AnEarlierOfferTakesIt(input: Input, sooner: Occurrence, one: Occurrence, candidate: Candidate)
    requires WellFormed(input) && input.occurrences == [sooner, one] && input.candidates == [candidate]
    requires sooner.effectiveDate < one.effectiveDate && OnlyPair(input, one, candidate)
    requires MayHave(input, sooner, input.taken, candidate)
    ensures forall p :: p in Proposals(input) ==> !p.confident
  {
    assert sooner in input.occurrences && one in input.occurrences;
    assert KeyOf(input.occurrences[0]) != KeyOf(input.occurrences[1]);
    NothingComesSooner(input, sooner, one);
    var got := EachGetsTheNearestLeft(input, sooner);
    assert input.taken + {} == input.taken;
    assert Earlier(input.occurrences, sooner, one);
    assert candidate.transactionId in SpentEarlier(input, one);
    OnlyPairIsProposedUnlessSpent(input, one, candidate);
    ProposalsAreSound(input);
    forall p | p in Proposals(input) ensures !p.confident {
      var o, c :| o in input.occurrences && IsProposalOf(input, Tally(input), o, c, p) && (p.confident <==> OnlyPair(input, o, c));
      assert c == candidate;
      assert o == one ==> p.recordId == one.recordId && p.dueDate == one.dueDate && p.transactionId == candidate.transactionId;
    }
  }

  lemma NothingComesSooner(input: Input, sooner: Occurrence, one: Occurrence)
    requires input.occurrences == [sooner, one] && sooner.effectiveDate < one.effectiveDate
    ensures SpentEarlier(input, sooner) == {}
  {
    forall other | other in input.occurrences ensures !Earlier(input.occurrences, other, sooner) {
    }
  }

  /** As when a payment typed without a counterparty is expected the day before. */
  lemma ASurePairIsOnlyOffered() returns (input: Input)
    ensures WellFormed(input) && |input.occurrences| == 2 && |input.candidates| == 1
    ensures OnlyPair(input, input.occurrences[1], input.candidates[0])
    ensures forall p :: p in Proposals(input) ==> !p.confident
  {
    var typed := Occurrence("a", "typed", Expense, 5000, None, 19, 19, Expected, false, None, None);
    var known := Occurrence("b", "known", Expense, 5000, None, 20, 20, Expected, false, None, None);
    var paid := Candidate("t", 20, -5000, None, Some("k"), None);
    input := Input([typed, known], map["b" := RecordKey(Some("k"), None)], [paid], {}, map[]);
    QualifyingPairsAgree(input, typed, paid);
    QualifyingPairsAgree(input, known, paid);
    AnEarlierOfferTakesIt(input, typed, known, paid);
  }
}
