/** What the matcher promises: confident matches are sound, the pass is greedy
    and maximal, and taking the confident ones away changes nothing else. */
module MatchingLaws {
  import opened Lists
  import opened Strings
  import opened Recurrence
  import opened Matching

  ghost predicate DistinctCandidates(candidates: seq<Candidate>) {
    forall i, j :: 0 <= i < j < |candidates| ==> candidates[i].transactionId != candidates[j].transactionId
  }

  ghost predicate DistinctOccurrences(occurrences: seq<Occurrence>) {
    forall i, j :: 0 <= i < j < |occurrences| ==> KeyOf(occurrences[i]) != KeyOf(occurrences[j])
  }

  /** The identities the ledger and the plan give. */
  ghost predicate WellFormed(input: Input) {
    DistinctCandidates(input.candidates) && DistinctOccurrences(input.occurrences)
  }

  lemma SameCandidate(candidates: seq<Candidate>, a: Candidate, b: Candidate)
    requires DistinctCandidates(candidates) && a in candidates && b in candidates
    requires a.transactionId == b.transactionId
    ensures a == b
  {
  }

  lemma SameOccurrence(occurrences: seq<Occurrence>, a: Occurrence, b: Occurrence)
    requires DistinctOccurrences(occurrences) && a in occurrences && b in occurrences && KeyOf(a) == KeyOf(b)
    ensures a == b
  {
  }

  // ------------------------------------------- the counts mean uniqueness

  lemma {:induction false} PairsOfMembers(input: Input, one: Occurrence, candidates: seq<Candidate>)
    ensures forall pair :: pair in PairsOf(input, one, candidates) <==>
              pair.key == KeyOf(one) &&
              exists candidate :: candidate in candidates && Qualifying(input, one, candidate) && candidate.transactionId == pair.transactionId
  {
    if candidates != [] {
      PairsOfMembers(input, one, candidates[1..]);
      assert candidates == [candidates[0]] + candidates[1..];
    }
  }

  ghost predicate IsPair(input: Input, occurrences: seq<Occurrence>, pair: Pair) {
    exists one, candidate :: one in occurrences && candidate in input.candidates && Qualifying(input, one, candidate)
      && pair == Pair(KeyOf(one), candidate.transactionId)
  }

  lemma {:induction false} AllPairsMembers(input: Input, occurrences: seq<Occurrence>)
    ensures forall pair :: pair in AllPairs(input, occurrences) <==> IsPair(input, occurrences, pair)
  {
    if occurrences != [] {
      AllPairsMembers(input, occurrences[1..]);
      PairsOfMembers(input, occurrences[0], input.candidates);
      assert occurrences == [occurrences[0]] + occurrences[1..];
    }
  }

  ghost predicate NoRepeats(pairs: seq<Pair>) {
    forall i, j :: 0 <= i < j < |pairs| ==> pairs[i] != pairs[j]
  }

  lemma {:induction false} PairsOfNoRepeats(input: Input, one: Occurrence, candidates: seq<Candidate>)
    requires DistinctCandidates(candidates)
    ensures NoRepeats(PairsOf(input, one, candidates))
  {
    if candidates != [] {
      PairsOfNoRepeats(input, one, candidates[1..]);
      PairsOfMembers(input, one, candidates[1..]);
      var rest := PairsOf(input, one, candidates[1..]);
      forall k | 0 <= k < |rest| ensures rest[k].transactionId != candidates[0].transactionId {
        assert rest[k] in rest;
      }
    }
  }

  lemma {:induction false} AllPairsNoRepeats(input: Input, occurrences: seq<Occurrence>)
    requires DistinctCandidates(input.candidates) && DistinctOccurrences(occurrences)
    ensures NoRepeats(AllPairs(input, occurrences))
  {
    if occurrences != [] {
      var first, rest := PairsOf(input, occurrences[0], input.candidates), AllPairs(input, occurrences[1..]);
      PairsOfNoRepeats(input, occurrences[0], input.candidates);
      AllPairsNoRepeats(input, occurrences[1..]);
      PairsOfMembers(input, occurrences[0], input.candidates);
      AllPairsMembers(input, occurrences[1..]);
      forall i, j | 0 <= i < |first| && 0 <= j < |rest| ensures first[i] != rest[j] {
        assert first[i] in first && rest[j] in rest;
      }
    }
  }

  /** A count of one is one pair and no other. */
  lemma {:induction false} CountIsOne(pairs: seq<Pair>, pair: Pair)
    requires NoRepeats(pairs) && pair in pairs
    ensures PerOccurrence(pairs, pair.key) == 1 <==> forall other :: other in pairs && other.key == pair.key ==> other == pair
    ensures PerTransaction(pairs, pair.transactionId) == 1 <==>
            forall other :: other in pairs && other.transactionId == pair.transactionId ==> other == pair
  {
    assert pairs == [pairs[0]] + pairs[1..];
    if pairs[0] == pair {
      NoneCounted(pairs[1..], pair);
      assert pair !in pairs[1..];
    } else {
      CountIsOne(pairs[1..], pair);
      NoneCounted(pairs[1..], pair);
      assert pair in pairs[1..];
    }
  }

  lemma {:induction false} NoneCounted(pairs: seq<Pair>, pair: Pair)
    ensures PerOccurrence(pairs, pair.key) == 0 <==> forall other :: other in pairs ==> other.key != pair.key
    ensures PerTransaction(pairs, pair.transactionId) == 0 <==> forall other :: other in pairs ==> other.transactionId != pair.transactionId
  {
    if pairs != [] {
      NoneCounted(pairs[1..], pair);
      assert pairs == [pairs[0]] + pairs[1..];
    }
  }

  /** This pair qualifies, and nothing else does for either of its two. */
  ghost predicate OnlyPair(input: Input, one: Occurrence, candidate: Candidate) {
    && Qualifying(input, one, candidate)
    && (forall other :: other in input.candidates && Qualifying(input, one, other) ==> other == candidate)
    && (forall other :: other in input.occurrences && Qualifying(input, other, candidate) ==> other == one)
  }

  lemma CountsMeanOnlyPair(input: Input, one: Occurrence, candidate: Candidate)
    requires WellFormed(input) && one in input.occurrences && candidate in input.candidates
    requires Qualifying(input, one, candidate)
    ensures PerOccurrence(Tally(input), KeyOf(one)) == 1 && PerTransaction(Tally(input), candidate.transactionId) == 1
            <==> OnlyPair(input, one, candidate)
  {
    var pairs, pair := Tally(input), Pair(KeyOf(one), candidate.transactionId);
    AllPairsMembers(input, input.occurrences);
    AllPairsNoRepeats(input, input.occurrences);
    assert IsPair(input, input.occurrences, pair);
    CountIsOne(pairs, pair);
    if OnlyPair(input, one, candidate) {
      forall other | other in pairs && (other.key == pair.key || other.transactionId == pair.transactionId)
        ensures other == pair
      {
        var o, c :| o in input.occurrences && c in input.candidates && Qualifying(input, o, c) && other == Pair(KeyOf(o), c.transactionId);
        if other.key == pair.key {
          SameOccurrence(input.occurrences, o, one);
        } else {
          SameCandidate(input.candidates, c, candidate);
        }
      }
    }
    forall c | c in input.candidates && Qualifying(input, one, c)
      ensures Pair(KeyOf(one), c.transactionId) in pairs
    {
      assert IsPair(input, input.occurrences, Pair(KeyOf(one), c.transactionId));
    }
    forall o | o in input.occurrences && Qualifying(input, o, candidate)
      ensures Pair(KeyOf(o), candidate.transactionId) in pairs
    {
      assert IsPair(input, input.occurrences, Pair(KeyOf(o), candidate.transactionId));
    }
  }

  // ------------------------------------------------ the best is the best

  lemma BetterIsStrict(a: Proposal, b: Proposal, c: Proposal)
    ensures !(Better(a, b) && Better(b, a))
    ensures Better(a, b) && Better(b, c) ==> Better(a, c)
    ensures Better(a, b) || Better(b, a) || a.transactionId == b.transactionId
  {
    TextLessIsTotal(a.transactionId, b.transactionId);
    if TextLess(a.transactionId, b.transactionId) && TextLess(b.transactionId, c.transactionId) {
      TextLessIsTransitive(a.transactionId, b.transactionId, c.transactionId);
    }
  }

  /** A candidate that may still be offered for the occurrence. */
  ghost predicate Eligible(input: Input, tally: seq<Pair>, one: Occurrence, candidates: seq<Candidate>, used: set<string>, p: Proposal) {
    exists candidate :: candidate in candidates && Open(input, one, candidate, used)
      && ProposalFor(input, tally, one, candidate) == Some(p)
  }

  lemma {:induction false} BestIsBest(input: Input, tally: seq<Pair>, one: Occurrence, candidates: seq<Candidate>, used: set<string>)
    requires DistinctCandidates(candidates)
    ensures var best := Best(input, tally, one, candidates, used);
      && (best.Some? ==> Eligible(input, tally, one, candidates, used, best.value))
      && (forall p :: Eligible(input, tally, one, candidates, used, p) ==>
            best.Some? && (p == best.value || Better(best.value, p)))
  {
    if candidates != [] {
      var n := |candidates| - 1;
      var rest, last := candidates[..n], candidates[n];
      assert candidates == rest + [last];
      BestIsBest(input, tally, one, rest, used);
      var before, best := Best(input, tally, one, rest, used), Best(input, tally, one, candidates, used);
      forall p | Eligible(input, tally, one, candidates, used, p)
        ensures best.Some? && (p == best.value || Better(best.value, p))
      {
        var candidate :| candidate in candidates && Open(input, one, candidate, used) && ProposalFor(input, tally, one, candidate) == Some(p);
        if before.Some? {
          BetterIsStrict(best.value, before.value, p);
          BetterIsStrict(best.value, p, p);
          if candidate == last {
            assert Eligible(input, tally, one, rest, used, before.value);
            BetterIsStrict(p, before.value, p);
          } else {
            assert candidate in rest;
            assert Eligible(input, tally, one, rest, used, p);
          }
        } else {
          if candidate in rest {
            assert Eligible(input, tally, one, rest, used, p);
          }
        }
      }
    }
  }

  // ------------------------------------------------- what is proposed

  /** A proposal is one open pair of an occurrence and a candidate. */
  ghost predicate IsProposalOf(input: Input, tally: seq<Pair>, one: Occurrence, candidate: Candidate, p: Proposal) {
    candidate in input.candidates && candidate.transactionId !in Refused(input, one) && ProposalFor(input, tally, one, candidate) == Some(p)
  }

  ghost predicate IsProposal(input: Input, tally: seq<Pair>, occurrences: seq<Occurrence>, p: Proposal) {
    exists one, candidate :: one in occurrences && IsProposalOf(input, tally, one, candidate, p)
  }

  predicate KeyOfProposal(p: Proposal, key: OccurrenceKey) {
    (p.recordId, p.dueDate) == key
  }

  ghost predicate UsesEachOnce(proposals: seq<Proposal>) {
    && (forall i, j :: 0 <= i < j < |proposals| ==> proposals[i].transactionId != proposals[j].transactionId)
    && (forall i, j :: 0 <= i < j < |proposals| ==> (proposals[i].recordId, proposals[i].dueDate) != (proposals[j].recordId, proposals[j].dueDate))
  }

  lemma OneMoreUse(p: Proposal, later: seq<Proposal>)
    requires UsesEachOnce(later)
    requires forall q :: q in later ==> q.transactionId != p.transactionId && (q.recordId, q.dueDate) != (p.recordId, p.dueDate)
    ensures UsesEachOnce([p] + later)
  {
    var all := [p] + later;
    forall i, j | 0 <= i < j < |all|
      ensures all[i].transactionId != all[j].transactionId
      ensures (all[i].recordId, all[i].dueDate) != (all[j].recordId, all[j].dueDate)
    {
      assert all[j] == later[j - 1] && later[j - 1] in later;
    }
  }

  lemma {:induction false} AssignIsSound(input: Input, tally: seq<Pair>, occurrences: seq<Occurrence>, used: set<string>)
    requires DistinctCandidates(input.candidates) && DistinctOccurrences(occurrences)
    ensures var proposals := Assign(input, tally, occurrences, used);
      && UsesEachOnce(proposals)
      && (forall p :: p in proposals ==> p.transactionId !in used && IsProposal(input, tally, occurrences, p))
  {
    if occurrences != [] {
      var one, rest := occurrences[0], occurrences[1..];
      var best := Best(input, tally, one, input.candidates, used);
      var usedNext := if best.None? then used else used + {best.value.transactionId};
      var later := Assign(input, tally, rest, usedNext);
      AssignIsSound(input, tally, rest, usedNext);
      ProposalsOfTheRest(input, tally, occurrences, later);
      if best.Some? {
        BestIsBest(input, tally, one, input.candidates, used);
        var c :| c in input.candidates && Open(input, one, c, used) && ProposalFor(input, tally, one, c) == Some(best.value);
        assert IsProposalOf(input, tally, one, c, best.value);
        OneMoreUse(best.value, later);
      }
    }
  }

  lemma ProposalsOfTheRest(input: Input, tally: seq<Pair>, occurrences: seq<Occurrence>, later: seq<Proposal>)
    requires occurrences != [] && DistinctOccurrences(occurrences)
    requires forall p :: p in later ==> IsProposal(input, tally, occurrences[1..], p)
    ensures forall p :: p in later ==> IsProposal(input, tally, occurrences, p) && (p.recordId, p.dueDate) != KeyOf(occurrences[0])
  {
    forall p | p in later
      ensures IsProposal(input, tally, occurrences, p) && (p.recordId, p.dueDate) != KeyOf(occurrences[0])
    {
      var o, c :| o in occurrences[1..] && IsProposalOf(input, tally, o, c, p);
      var k :| 0 <= k < |occurrences[1..]| && occurrences[1..][k] == o;
      assert occurrences[k + 1] == o;
    }
  }

  lemma {:induction false} InsertKeepsDistinct(before: (Occurrence, Occurrence) -> bool, one: Occurrence, s: seq<Occurrence>)
    requires DistinctOccurrences(s) && forall other :: other in s ==> KeyOf(other) != KeyOf(one)
    ensures DistinctOccurrences(Insert(before, one, s))
    ensures forall other :: other in Insert(before, one, s) <==> other == one || other in s
  {
    if s != [] && before(s[0], one) {
      var rest := Insert(before, one, s[1..]);
      InsertKeepsDistinct(before, one, s[1..]);
      assert s == [s[0]] + s[1..];
      forall k | 0 <= k < |rest| ensures KeyOf(rest[k]) != KeyOf(s[0]) {
        assert rest[k] in rest;
      }
    }
  }

  lemma {:induction false} SortKeepsDistinct(before: (Occurrence, Occurrence) -> bool, s: seq<Occurrence>)
    requires DistinctOccurrences(s)
    ensures DistinctOccurrences(Sort(before, s))
    ensures forall one :: one in Sort(before, s) <==> one in s
  {
    if s != [] {
      SortKeepsDistinct(before, s[1..]);
      InsertKeepsDistinct(before, s[0], Sort(before, s[1..]));
      assert s == [s[0]] + s[1..];
    }
  }

  /** Every transaction and every occurrence is proposed at most once; never one
      already taken, never one refused; and a proposal is confident exactly when
      its pair qualifies and is the only one that does for either of its two. */
  lemma ProposalsAreSound(input: Input)
    requires WellFormed(input)
    ensures UsesEachOnce(Proposals(input))
    ensures forall p :: p in Proposals(input) ==>
              && p.transactionId !in input.taken
              && (exists one, candidate :: one in input.occurrences && IsProposalOf(input, Tally(input), one, candidate, p)
                   && (p.confident <==> OnlyPair(input, one, candidate)))
  {
    SortKeepsDistinct(Sooner, input.occurrences);
    var inOrder := Sort(Sooner, input.occurrences);
    AssignIsSound(input, Tally(input), inOrder, input.taken);
    forall p | p in Proposals(input)
      ensures exists one, candidate :: one in input.occurrences && IsProposalOf(input, Tally(input), one, candidate, p)
                && (p.confident <==> OnlyPair(input, one, candidate))
    {
      var one, candidate :| one in inOrder && IsProposalOf(input, Tally(input), one, candidate, p);
      ConfidentIsOnlyPair(input, one, candidate, p);
    }
  }

  lemma ConfidentIsOnlyPair(input: Input, one: Occurrence, candidate: Candidate, p: Proposal)
    requires WellFormed(input) && one in input.occurrences && p.transactionId !in input.taken
    requires IsProposalOf(input, Tally(input), one, candidate, p)
    ensures p.confident <==> OnlyPair(input, one, candidate)
  {
    if Qualifying(input, one, candidate) {
      CountsMeanOnlyPair(input, one, candidate);
    }
  }

  /** Qualifying, spelt out. */
  lemma QualifyingPairsAgree(input: Input, one: Occurrence, candidate: Candidate)
    ensures Qualifying(input, one, candidate) <==>
      && candidate.transactionId !in input.taken && candidate.transactionId !in Refused(input, one)
      && candidate.amountCents == Signed(one)
      && -7 <= candidate.date - one.effectiveDate <= 7
      && (Agrees(RecordKeyOf(input, one.recordId).key, candidate.counterpartyKey)
          || Agrees(RecordKeyOf(input, one.recordId).mandateId, candidate.mandateId))
  {
  }

  /** The pass leaves nothing on the table: a pair that could still be offered
      has its transaction spent on another occurrence. */
  ghost predicate NothingLeft(input: Input, tally: seq<Pair>, occurrences: seq<Occurrence>, used: set<string>, proposals: seq<Proposal>) {
    forall one, candidate :: one in occurrences && candidate in input.candidates && Open(input, one, candidate, used)
      && Common(input, one, candidate).Some?
      ==> exists p :: p in proposals && (KeyOfProposal(p, KeyOf(one)) || p.transactionId == candidate.transactionId)
  }

  lemma {:induction false} AssignIsMaximal(input: Input, tally: seq<Pair>, occurrences: seq<Occurrence>, used: set<string>)
    requires DistinctCandidates(input.candidates)
    ensures NothingLeft(input, tally, occurrences, used, Assign(input, tally, occurrences, used))
  {
    if occurrences != [] {
      var first, rest := occurrences[0], occurrences[1..];
      var best := Best(input, tally, first, input.candidates, used);
      var all := Assign(input, tally, occurrences, used);
      BestIsBest(input, tally, first, input.candidates, used);
      var usedNext := if best.None? then used else used + {best.value.transactionId};
      AssignIsMaximal(input, tally, rest, usedNext);
      assert occurrences == [first] + rest;
      forall one, candidate | one in occurrences && candidate in input.candidates && Open(input, one, candidate, used)
                              && Common(input, one, candidate).Some?
        ensures exists p :: p in all && (KeyOfProposal(p, KeyOf(one)) || p.transactionId == candidate.transactionId)
      {
        if one == first {
          assert Eligible(input, tally, first, input.candidates, used, ProposalFor(input, tally, first, candidate).value);
          assert KeyOfProposal(best.value, KeyOf(first));
        } else if best.Some? && best.value.transactionId == candidate.transactionId {
          assert best.value in all;
        } else {
          assert Open(input, one, candidate, usedNext);
          var p :| p in Assign(input, tally, rest, usedNext) && (KeyOfProposal(p, KeyOf(one)) || p.transactionId == candidate.transactionId);
          assert p in all;
        }
      }
    }
  }

  lemma ProposalsAreMaximal(input: Input)
    requires WellFormed(input)
    ensures NothingLeft(input, Tally(input), input.occurrences, input.taken, Proposals(input))
  {
    SortMembers(Sooner, input.occurrences);
    AssignIsMaximal(input, Tally(input), Sort(Sooner, input.occurrences), input.taken);
  }

  // --------------------------------- taking the confident matches away

  predicate Confident(p: Proposal) {
    p.confident
  }

  predicate Waiting(p: Proposal) {
    !p.confident
  }

  ghost function AppliedIds(proposals: seq<Proposal>): set<string> {
    set p | p in proposals && p.confident :: p.transactionId
  }

  ghost function AppliedKeys(proposals: seq<Proposal>): set<OccurrenceKey> {
    set p | p in proposals && p.confident :: (p.recordId, p.dueDate)
  }

  /** `after` is `before` once the confident proposals have been applied. */
  ghost predicate AfterApplying(before: Input, after: Input) {
    var ids, keys := AppliedIds(Proposals(before)), AppliedKeys(Proposals(before));
    && after.occurrences == Filter(one => KeyOf(one) !in keys, before.occurrences)
    && after.candidates == before.candidates
    && after.taken == before.taken + ids
    && (forall one :: one in after.occurrences ==>
          RecordKeyOf(after, one.recordId) == RecordKeyOf(before, one.recordId) && Refused(after, one) == Refused(before, one))
  }

  /** A qualifying pair has either both its halves applied or neither. */
  ghost predicate Together(input: Input, ids: set<string>, keys: set<OccurrenceKey>, occurrences: seq<Occurrence>) {
    forall one, candidate :: one in occurrences && candidate in input.candidates && Qualifying(input, one, candidate)
      ==> (KeyOf(one) in keys <==> candidate.transactionId in ids)
  }

  lemma AppliedTogether(input: Input)
    requires WellFormed(input)
    ensures Together(input, AppliedIds(Proposals(input)), AppliedKeys(Proposals(input)), input.occurrences)
  {
    var proposals := Proposals(input);
    ProposalsAreSound(input);
    forall one, candidate | one in input.occurrences && candidate in input.candidates && Qualifying(input, one, candidate)
      ensures KeyOf(one) in AppliedKeys(proposals) <==> candidate.transactionId in AppliedIds(proposals)
    {
      if KeyOf(one) in AppliedKeys(proposals) {
        var p :| p in proposals && p.confident && (p.recordId, p.dueDate) == KeyOf(one);
        var o, c :| o in input.occurrences && IsProposalOf(input, Tally(input), o, c, p) && (p.confident <==> OnlyPair(input, o, c));
        SameOccurrence(input.occurrences, o, one);
        assert c == candidate;
      }
      if candidate.transactionId in AppliedIds(proposals) {
        var p :| p in proposals && p.confident && p.transactionId == candidate.transactionId;
        var o, c :| o in input.occurrences && IsProposalOf(input, Tally(input), o, c, p) && (p.confident <==> OnlyPair(input, o, c));
        SameCandidate(input.candidates, c, candidate);
        assert o == one;
      }
    }
  }

  /** Keys and records are read the same way for everything left. */
  ghost predicate ReadsAlike(before: Input, after: Input, ids: set<string>, one: Occurrence) {
    && after.candidates == before.candidates
    && after.taken == before.taken + ids
    && RecordKeyOf(after, one.recordId) == RecordKeyOf(before, one.recordId)
    && Refused(after, one) == Refused(before, one)
  }

  lemma {:induction false} PairsStay(before: Input, after: Input, ids: set<string>, one: Occurrence, candidates: seq<Candidate>)
    requires ReadsAlike(before, after, ids, one)
    requires forall c :: c in candidates && Qualifying(before, one, c) ==> c.transactionId !in ids
    ensures PairsOf(after, one, candidates) == PairsOf(before, one, candidates)
  {
    if candidates != [] {
      assert candidates == [candidates[0]] + candidates[1..];
      PairsStay(before, after, ids, one, candidates[1..]);
    }
  }

  lemma AppliedPairsCountForNobodyElse(before: Input, ids: set<string>, one: Occurrence, key: OccurrenceKey, id: string)
    requires forall c :: c in before.candidates && Qualifying(before, one, c) ==> c.transactionId in ids
    ensures key != KeyOf(one) ==> PerOccurrence(PairsOf(before, one, before.candidates), key) == 0
    ensures id !in ids ==> PerTransaction(PairsOf(before, one, before.candidates), id) == 0
  {
    PairsOfMembers(before, one, before.candidates);
    NoneCounted(PairsOf(before, one, before.candidates), Pair(key, id));
  }

  ghost predicate CountsAgree(a: seq<Pair>, b: seq<Pair>, ids: set<string>, keys: set<OccurrenceKey>) {
    && (forall key :: key !in keys ==> PerOccurrence(a, key) == PerOccurrence(b, key))
    && (forall id :: id !in ids ==> PerTransaction(a, id) == PerTransaction(b, id))
  }

  /** Removing the applied pairs leaves every other ambiguity count as it was. */
  lemma {:induction false} TalliesAgree(before: Input, after: Input, ids: set<string>, keys: set<OccurrenceKey>, occurrences: seq<Occurrence>)
    requires Together(before, ids, keys, occurrences)
    requires forall one :: one in occurrences && KeyOf(one) !in keys ==> ReadsAlike(before, after, ids, one)
    ensures CountsAgree(AllPairs(after, Filter(one => KeyOf(one) !in keys, occurrences)), AllPairs(before, occurrences), ids, keys)
  {
    if occurrences != [] {
      var one, rest := occurrences[0], occurrences[1..];
      assert occurrences == [one] + rest;
      TalliesAgree(before, after, ids, keys, rest);
      var kept := Filter(o => KeyOf(o) !in keys, rest);
      var pairs := PairsOf(before, one, before.candidates);
      if KeyOf(one) !in keys {
        PairsStay(before, after, ids, one, before.candidates);
        CountsSplit(pairs, AllPairs(before, rest));
        CountsSplit(pairs, AllPairs(after, kept));
        assert Filter(o => KeyOf(o) !in keys, occurrences) == [one] + kept;
        assert ([one] + kept)[1..] == kept;
      } else {
        CountsSplit(pairs, AllPairs(before, rest));
        forall key | key != KeyOf(one) ensures PerOccurrence(pairs, key) == 0 {
          AppliedPairsCountForNobodyElse(before, ids, one, key, "");
        }
        forall id | id !in ids ensures PerTransaction(pairs, id) == 0 {
          AppliedPairsCountForNobodyElse(before, ids, one, KeyOf(one), id);
        }
      }
    }
  }

  lemma CountsSplit(a: seq<Pair>, b: seq<Pair>)
    ensures forall key :: PerOccurrence(a + b, key) == PerOccurrence(a, key) + PerOccurrence(b, key)
    ensures forall id :: PerTransaction(a + b, id) == PerTransaction(a, id) + PerTransaction(b, id)
  {
    forall key ensures PerOccurrence(a + b, key) == PerOccurrence(a, key) + PerOccurrence(b, key) {
      CountsAdd(a, b, key, "");
    }
    forall id ensures PerTransaction(a + b, id) == PerTransaction(a, id) + PerTransaction(b, id) {
      CountsAdd(a, b, ("", 0), id);
    }
  }

  lemma BestStays(before: Input, after: Input, ids: set<string>, keys: set<OccurrenceKey>,
                  tally: seq<Pair>, tallyAfter: seq<Pair>, one: Occurrence, used: set<string>)
    requires DistinctCandidates(before.candidates) && KeyOf(one) !in keys
    requires ReadsAlike(before, after, ids, one) && CountsAgree(tallyAfter, tally, ids, keys)
    requires var best := Best(before, tally, one, before.candidates, used); best.Some? ==> best.value.transactionId !in ids
    ensures Best(after, tallyAfter, one, after.candidates, used + ids) == Best(before, tally, one, before.candidates, used)
  {
    var best, again := Best(before, tally, one, before.candidates, used), Best(after, tallyAfter, one, after.candidates, used + ids);
    BestIsBest(before, tally, one, before.candidates, used);
    BestIsBest(after, tallyAfter, one, after.candidates, used + ids);
    if again.Some? {
      var c :| c in after.candidates && Open(after, one, c, used + ids) && ProposalFor(after, tallyAfter, one, c) == Some(again.value);
      assert ProposalFor(before, tally, one, c) == Some(again.value);
      assert Eligible(before, tally, one, before.candidates, used, again.value);
    }
    if best.Some? {
      var c :| c in before.candidates && Open(before, one, c, used) && ProposalFor(before, tally, one, c) == Some(best.value);
      assert ProposalFor(after, tallyAfter, one, c) == Some(best.value);
      assert Eligible(after, tallyAfter, one, after.candidates, used + ids, best.value);
      BetterIsStrict(best.value, again.value, best.value);
    }
  }

  /** The proposals that applied are known by their keys and by their ids. */
  ghost predicate KnownBy(proposals: seq<Proposal>, ids: set<string>, keys: set<OccurrenceKey>) {
    forall p :: p in proposals ==> (p.confident <==> p.transactionId in ids) && (p.confident <==> (p.recordId, p.dueDate) in keys)
  }

  ghost predicate EveryKeyProposed(occurrences: seq<Occurrence>, proposals: seq<Proposal>, keys: set<OccurrenceKey>) {
    forall one :: one in occurrences && KeyOf(one) in keys ==> exists p :: p in proposals && KeyOfProposal(p, KeyOf(one))
  }

  /** An occurrence that was applied took its transaction with it. */
  lemma TookItsOwn(before: Input, tally: seq<Pair>, occurrences: seq<Occurrence>, used: set<string>, ids: set<string>, keys: set<OccurrenceKey>)
    requires occurrences != [] && DistinctCandidates(before.candidates) && DistinctOccurrences(occurrences)
    requires KnownBy(Assign(before, tally, occurrences, used), ids, keys)
    requires EveryKeyProposed(occurrences, Assign(before, tally, occurrences, used), keys)
    requires KeyOf(occurrences[0]) in keys
    ensures var best := Best(before, tally, occurrences[0], before.candidates, used);
      best.Some? && best.value.confident && best.value.transactionId in ids
  {
    var one, rest := occurrences[0], occurrences[1..];
    assert one in occurrences && occurrences == [one] + rest;
    var best := Best(before, tally, one, before.candidates, used);
    var usedNext := if best.None? then used else used + {best.value.transactionId};
    var later := Assign(before, tally, rest, usedNext);
    var all := Assign(before, tally, occurrences, used);
    AssignIsSound(before, tally, rest, usedNext);
    ProposalsOfTheRest(before, tally, occurrences, later);
    var p :| p in all && KeyOfProposal(p, KeyOf(one));
    assert p !in later;
    assert best.Some? && best.value == p;
  }

  /** What an occurrence that is left was offered was not applied. */
  lemma BestOfTheRest(before: Input, tally: seq<Pair>, occurrences: seq<Occurrence>, used: set<string>, ids: set<string>, keys: set<OccurrenceKey>)
    requires occurrences != [] && DistinctCandidates(before.candidates)
    requires KnownBy(Assign(before, tally, occurrences, used), ids, keys)
    requires KeyOf(occurrences[0]) !in keys
    ensures var best := Best(before, tally, occurrences[0], before.candidates, used);
      best.Some? ==> best.value.transactionId !in ids && !best.value.confident
  {
    LaterIsKnown(before, tally, occurrences, used, ids, keys);
    BestIsBest(before, tally, occurrences[0], before.candidates, used);
  }

  lemma LaterIsKnown(before: Input, tally: seq<Pair>, occurrences: seq<Occurrence>, used: set<string>, ids: set<string>, keys: set<OccurrenceKey>)
    requires occurrences != [] && KnownBy(Assign(before, tally, occurrences, used), ids, keys)
    ensures var best := Best(before, tally, occurrences[0], before.candidates, used);
      var usedNext := if best.None? then used else used + {best.value.transactionId};
      KnownBy(Assign(before, tally, occurrences[1..], usedNext), ids, keys)
      && (best.Some? ==> best.value in Assign(before, tally, occurrences, used))
  {
    assert occurrences == [occurrences[0]] + occurrences[1..];
  }

  ghost predicate LeftReadAlike(before: Input, after: Input, ids: set<string>, keys: set<OccurrenceKey>, occurrences: seq<Occurrence>) {
    forall one :: one in occurrences && KeyOf(one) !in keys ==> ReadsAlike(before, after, ids, one)
  }

  lemma RestReadsAlike(before: Input, after: Input, ids: set<string>, keys: set<OccurrenceKey>, occurrences: seq<Occurrence>)
    requires occurrences != [] && LeftReadAlike(before, after, ids, keys, occurrences)
    ensures LeftReadAlike(before, after, ids, keys, occurrences[1..])
    ensures KeyOf(occurrences[0]) !in keys ==> ReadsAlike(before, after, ids, occurrences[0])
  {
    assert occurrences[0] in occurrences;
  }

  lemma LeftWaiting(best: Option<Proposal>, later: seq<Proposal>)
    ensures best.Some? && !best.value.confident ==> Filter(Waiting, [best.value] + later) == [best.value] + Filter(Waiting, later)
  {
    if best.Some? {
      assert ([best.value] + later)[1..] == later;
    }
  }

  lemma OneMoreLeft(after: Input, tallyAfter: seq<Pair>, one: Occurrence, kept: seq<Occurrence>, used: set<string>, ids: set<string>,
                    best: Option<Proposal>, later: seq<Proposal>)
    requires Best(after, tallyAfter, one, after.candidates, used + ids) == best
    requires var usedNext := if best.None? then used else used + {best.value.transactionId};
      Assign(after, tallyAfter, kept, usedNext + ids) == Filter(Waiting, later)
    ensures Assign(after, tallyAfter, [one] + kept, used + ids)
            == if best.None? then Filter(Waiting, later) else [best.value] + Filter(Waiting, later)
  {
    assert ([one] + kept)[0] == one && ([one] + kept)[1..] == kept;
    if best.Some? {
      assert used + {best.value.transactionId} + ids == used + ids + {best.value.transactionId};
    }
  }

  /** The greedy pass makes the same choices for everything that is left. */
  lemma {:induction false} AssignStays(before: Input, after: Input, ids: set<string>, keys: set<OccurrenceKey>,
                                       tally: seq<Pair>, tallyAfter: seq<Pair>, occurrences: seq<Occurrence>, used: set<string>)
    requires DistinctCandidates(before.candidates) && DistinctOccurrences(occurrences)
    requires LeftReadAlike(before, after, ids, keys, occurrences)
    requires CountsAgree(tallyAfter, tally, ids, keys)
    requires KnownBy(Assign(before, tally, occurrences, used), ids, keys)
    requires EveryKeyProposed(occurrences, Assign(before, tally, occurrences, used), keys)
    ensures Assign(after, tallyAfter, Filter(one => KeyOf(one) !in keys, occurrences), used + ids)
            == Filter(Waiting, Assign(before, tally, occurrences, used))
  {
    if occurrences != [] {
      var best := Best(before, tally, occurrences[0], before.candidates, used);
      var usedNext := if best.None? then used else used + {best.value.transactionId};
      RestIsProposed(before, tally, occurrences, used, keys);
      RestReadsAlike(before, after, ids, keys, occurrences);
      LaterIsKnown(before, tally, occurrences, used, ids, keys);
      AssignStays(before, after, ids, keys, tally, tallyAfter, occurrences[1..], usedNext);
      if KeyOf(occurrences[0]) in keys {
        TookItsOwn(before, tally, occurrences, used, ids, keys);
        StaysTaken(before, after, ids, keys, tally, tallyAfter, occurrences, used);
      } else {
        BestOfTheRest(before, tally, occurrences, used, ids, keys);
        StaysLeft(before, after, ids, keys, tally, tallyAfter, occurrences, used);
      }
    }
  }

  lemma StaysTaken(before: Input, after: Input, ids: set<string>, keys: set<OccurrenceKey>,
                   tally: seq<Pair>, tallyAfter: seq<Pair>, occurrences: seq<Occurrence>, used: set<string>)
    requires occurrences != [] && KeyOf(occurrences[0]) in keys
    requires var best := Best(before, tally, occurrences[0], before.candidates, used);
      && best.Some? && best.value.confident && best.value.transactionId in ids
      && Assign(after, tallyAfter, Filter(one => KeyOf(one) !in keys, occurrences[1..]), used + {best.value.transactionId} + ids)
         == Filter(Waiting, Assign(before, tally, occurrences[1..], used + {best.value.transactionId}))
    ensures Assign(after, tallyAfter, Filter(one => KeyOf(one) !in keys, occurrences), used + ids)
            == Filter(Waiting, Assign(before, tally, occurrences, used))
  {
    var best := Best(before, tally, occurrences[0], before.candidates, used).value;
    var later := Assign(before, tally, occurrences[1..], used + {best.transactionId});
    assert used + {best.transactionId} + ids == used + ids;
    assert ([best] + later)[1..] == later;
  }

  lemma StaysLeft(before: Input, after: Input, ids: set<string>, keys: set<OccurrenceKey>,
                  tally: seq<Pair>, tallyAfter: seq<Pair>, occurrences: seq<Occurrence>, used: set<string>)
    requires occurrences != [] && KeyOf(occurrences[0]) !in keys
    requires DistinctCandidates(before.candidates)
    requires ReadsAlike(before, after, ids, occurrences[0]) && CountsAgree(tallyAfter, tally, ids, keys)
    requires var best := Best(before, tally, occurrences[0], before.candidates, used);
      var usedNext := if best.None? then used else used + {best.value.transactionId};
      && (best.Some? ==> best.value.transactionId !in ids && !best.value.confident)
      && Assign(after, tallyAfter, Filter(one => KeyOf(one) !in keys, occurrences[1..]), usedNext + ids)
         == Filter(Waiting, Assign(before, tally, occurrences[1..], usedNext))
    ensures Assign(after, tallyAfter, Filter(one => KeyOf(one) !in keys, occurrences), used + ids)
            == Filter(Waiting, Assign(before, tally, occurrences, used))
  {
    var one := occurrences[0];
    var best := Best(before, tally, one, before.candidates, used);
    var later := Assign(before, tally, occurrences[1..], if best.None? then used else used + {best.value.transactionId});
    var kept := Filter(o => KeyOf(o) !in keys, occurrences[1..]);
    assert Filter(o => KeyOf(o) !in keys, occurrences) == [one] + kept;
    BestStays(before, after, ids, keys, tally, tallyAfter, one, used);
    LeftWaiting(best, later);
    OneMoreLeft(after, tallyAfter, one, kept, used, ids, best, later);
  }

  lemma RestIsProposed(before: Input, tally: seq<Pair>, occurrences: seq<Occurrence>, used: set<string>, keys: set<OccurrenceKey>)
    requires occurrences != [] && DistinctCandidates(before.candidates) && DistinctOccurrences(occurrences)
    requires EveryKeyProposed(occurrences, Assign(before, tally, occurrences, used), keys)
    ensures var best := Best(before, tally, occurrences[0], before.candidates, used);
      var usedNext := if best.None? then used else used + {best.value.transactionId};
      EveryKeyProposed(occurrences[1..], Assign(before, tally, occurrences[1..], usedNext), keys)
  {
    var one, rest := occurrences[0], occurrences[1..];
    var best := Best(before, tally, one, before.candidates, used);
    var usedNext := if best.None? then used else used + {best.value.transactionId};
    var later := Assign(before, tally, rest, usedNext);
    BestIsBest(before, tally, one, before.candidates, used);
    forall other | other in rest && KeyOf(other) in keys
      ensures exists p :: p in later && KeyOfProposal(p, KeyOf(other))
    {
      var k :| 0 <= k < |rest| && rest[k] == other;
      assert occurrences[k + 1] == other;
      var p :| p in Assign(before, tally, occurrences, used) && KeyOfProposal(p, KeyOf(other));
      assert KeyOf(one) != KeyOf(other);
      assert p in later;
    }
  }

  /** Matching is a fixpoint: once the confident proposals are applied, asking
      again offers exactly the ones left waiting, in the same order, and none of
      them has become confident. */
  lemma MatchingAgain(before: Input, after: Input)
    requires WellFormed(before) && AfterApplying(before, after)
    ensures Proposals(after) == Filter(Waiting, Proposals(before))
    ensures forall p :: p in Proposals(after) ==> !p.confident
  {
    var proposals := Proposals(before);
    var ids, keys := AppliedIds(proposals), AppliedKeys(proposals);
    var keep := (one: Occurrence) => KeyOf(one) !in keys;
    var inOrder := Sort(Sooner, before.occurrences);
    SortKeepsDistinct(Sooner, before.occurrences);
    AppliedTogether(before);
    TalliesAgree(before, after, ids, keys, before.occurrences);
    SoonerIsAnOrder();
    SortFilter(Sooner, keep, before.occurrences);
    ProposalsAreSound(before);
    AppliedAreKnown(before);
    AssignStays(before, after, ids, keys, Tally(before), Tally(after), inOrder, before.taken);
  }

  lemma SoonerIsAnOrder()
    ensures WeakOrder(Sooner)
  {
  }

  lemma AppliedAreKnown(before: Input)
    requires UsesEachOnce(Proposals(before))
    ensures KnownBy(Proposals(before), AppliedIds(Proposals(before)), AppliedKeys(Proposals(before)))
    ensures EveryKeyProposed(Sort(Sooner, before.occurrences), Proposals(before), AppliedKeys(Proposals(before)))
  {
    var proposals := Proposals(before);
    forall p | p in proposals && !p.confident
      ensures p.transactionId !in AppliedIds(proposals) && (p.recordId, p.dueDate) !in AppliedKeys(proposals)
    {
      forall q | q in proposals && q.confident
        ensures q.transactionId != p.transactionId && (q.recordId, q.dueDate) != (p.recordId, p.dueDate)
      {
        var i :| 0 <= i < |proposals| && proposals[i] == p;
        var j :| 0 <= j < |proposals| && proposals[j] == q;
      }
    }
    forall one | one in Sort(Sooner, before.occurrences) && KeyOf(one) in AppliedKeys(proposals)
      ensures exists p :: p in proposals && KeyOfProposal(p, KeyOf(one))
    {
      var p :| p in proposals && p.confident && (p.recordId, p.dueDate) == KeyOf(one);
      assert KeyOfProposal(p, KeyOf(one));
    }
  }
}
