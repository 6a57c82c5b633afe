/** What the statements read prove, as intervals of days (ayq-evidence.ts). */
module Coverage {
  import opened Lists
  import Calendar

  /** A closed interval of day numbers, both ends inclusive. */
  datatype Interval = Interval(from: int, to: int)

  /** One import's reading of one account; an unknown start is `None`. */
  datatype Evidence = Evidence(accountId: string, fromDate: Option<int>, toDate: int)

  datatype Lifetime = Lifetime(accountId: string, firstSeen: Option<int>)

  ghost predicate Covered(intervals: seq<Interval>, day: int) {
    exists i :: 0 <= i < |intervals| && intervals[i].from <= day <= intervals[i].to
  }

  ghost predicate SameDays(a: seq<Interval>, b: seq<Interval>) {
    forall day :: Covered(a, day) <==> Covered(b, day)
  }

  /** Between an interval and any later one lies a day neither covers. */
  ghost predicate Apart(intervals: seq<Interval>) {
    forall i, j :: 0 <= i < j < |intervals| ==> intervals[i].to + 1 < intervals[j].from
  }

  ghost predicate Forwards(intervals: seq<Interval>) {
    forall i :: 0 <= i < |intervals| ==> intervals[i].from <= intervals[i].to
  }

  /** Sorted by start: the comparator of the union. */
  predicate Sooner(a: Interval, b: Interval) {
    a.from < b.from || (a.from == b.from && a.to < b.to)
  }

  function Last(merged: seq<Interval>): Interval
    requires merged != []
  {
    merged[|merged| - 1]
  }

  /** One more interval, in order of start: it extends the last one when it
      overlaps it or begins the day after, and stands apart otherwise. */
  function Absorb(merged: seq<Interval>, one: Interval): seq<Interval> {
    if merged != [] && one.from <= Last(merged).to + 1 then
      if one.to > Last(merged).to
      then merged[..|merged| - 1] + [Last(merged).(to := one.to)]
      else merged
    else merged + [one]
  }

  function MergeAll(sorted: seq<Interval>): seq<Interval> {
    if sorted == [] then []
    else Absorb(MergeAll(sorted[..|sorted| - 1]), Last(sorted))
  }

  function UnionOf(intervals: seq<Interval>): seq<Interval> {
    MergeAll(Sort(Sooner, intervals))
  }

  method Union(intervals: seq<Interval>) returns (merged: seq<Interval>)
    ensures merged == UnionOf(intervals)
  {
    var sorted := Sort(Sooner, intervals);
    merged := [];
    for i := 0 to |sorted|
      invariant merged == MergeAll(sorted[..i])
    {
      var one := sorted[i];
      assert sorted[..i + 1][..i] == sorted[..i];
      if merged != [] && one.from <= Last(merged).to + 1 {
        var last := Last(merged);
        if one.to > last.to {
          merged := merged[..|merged| - 1] + [last.(to := one.to)];
        }
      } else {
        merged := merged + [one];
      }
    }
    assert sorted[..|sorted|] == sorted;
  }

  // ------------------------------------------------ the union is canonical

  lemma AbsorbKeepsDays(merged: seq<Interval>, one: Interval)
    requires merged != [] ==> Last(merged).from <= one.from
    ensures forall day :: Covered(Absorb(merged, one), day) <==> Covered(merged, day) || one.from <= day <= one.to
  {
    var r := Absorb(merged, one);
    forall day ensures Covered(r, day) <==> Covered(merged, day) || one.from <= day <= one.to {
      if Covered(merged, day) {
        var i :| 0 <= i < |merged| && merged[i].from <= day <= merged[i].to;
        assert r[i].from <= day <= r[i].to;
      }
      if one.from <= day <= one.to {
        assert r[|r| - 1].from <= day <= r[|r| - 1].to;
      }
      if Covered(r, day) {
        var i :| 0 <= i < |r| && r[i].from <= day <= r[i].to;
        if i < |merged| && day <= merged[i].to {
          assert merged[i].from <= day <= merged[i].to;
        }
      }
    }
  }

  lemma CoveredSnoc(intervals: seq<Interval>, day: int)
    requires intervals != []
    ensures Covered(intervals, day) <==>
            Covered(intervals[..|intervals| - 1], day) || Last(intervals).from <= day <= Last(intervals).to
  {
    CoveredByMember(intervals, day);
    CoveredByMember(intervals[..|intervals| - 1], day);
    assert intervals == intervals[..|intervals| - 1] + [Last(intervals)];
  }

  lemma {:induction false} MergeIsApart(sorted: seq<Interval>)
    requires Ordered(Sooner, sorted)
    ensures Apart(MergeAll(sorted))
    ensures SameDays(MergeAll(sorted), sorted)
    ensures Forwards(sorted) ==> Forwards(MergeAll(sorted))
    ensures sorted != [] ==> MergeAll(sorted) != [] && Last(MergeAll(sorted)).from <= Last(sorted).from
  {
    if sorted != [] {
      var n := |sorted| - 1;
      var before, one := sorted[..n], Last(sorted);
      MergeIsApart(before);
      assert before != [] ==> Last(before) == sorted[n - 1] && !Sooner(one, sorted[n - 1]);
      AbsorbStaysApart(MergeAll(before), one);
      AbsorbStaysForwards(MergeAll(before), one);
      MergedDays(sorted, MergeAll(before));
      assert Forwards(sorted) ==> Forwards(before) && one.from <= one.to;
    }
  }

  lemma AbsorbStaysForwards(merged: seq<Interval>, one: Interval)
    requires merged != [] ==> Last(merged).from <= one.from
    ensures Absorb(merged, one) != [] && Last(Absorb(merged, one)).from <= one.from
    ensures Forwards(merged) && one.from <= one.to ==> Forwards(Absorb(merged, one))
  {
  }

  lemma MergedDays(sorted: seq<Interval>, merged: seq<Interval>)
    requires sorted != [] && SameDays(merged, sorted[..|sorted| - 1])
    requires merged != [] ==> Last(merged).from <= Last(sorted).from
    ensures SameDays(Absorb(merged, Last(sorted)), sorted)
  {
    AbsorbKeepsDays(merged, Last(sorted));
    forall day ensures Covered(Absorb(merged, Last(sorted)), day) <==> Covered(sorted, day) {
      CoveredSnoc(sorted, day);
    }
  }

  lemma AbsorbStaysApart(merged: seq<Interval>, one: Interval)
    requires Apart(merged)
    requires merged != [] ==> Last(merged).from <= one.from
    ensures Apart(Absorb(merged, one))
  {
    var r, n := Absorb(merged, one), |merged|;
    forall i, j | 0 <= i < j < |r| ensures r[i].to + 1 < r[j].from {
      if j < n {
        assert merged[i].to + 1 < merged[j].from;
      } else if i < n - 1 {
        assert merged[i].to + 1 < merged[n - 1].from;
      }
    }
  }

  lemma SoonerIsAnOrder()
    ensures WeakOrder(Sooner)
  {
  }

  lemma SortKeepsDays(intervals: seq<Interval>)
    ensures SameDays(Sort(Sooner, intervals), intervals)
    ensures Forwards(intervals) ==> Forwards(Sort(Sooner, intervals))
  {
    var sorted := Sort(Sooner, intervals);
    SortMembers(Sooner, intervals);
    forall day ensures Covered(sorted, day) <==> Covered(intervals, day) {
      CoveredByMember(sorted, day);
      CoveredByMember(intervals, day);
    }
    forall i | 0 <= i < |sorted| && Forwards(intervals) ensures sorted[i].from <= sorted[i].to {
      assert sorted[i] in intervals;
    }
  }

  lemma CoveredByMember(intervals: seq<Interval>, day: int)
    ensures Covered(intervals, day) <==> exists one :: one in intervals && one.from <= day <= one.to
  {
    if one :| one in intervals && one.from <= day <= one.to {
      var i :| 0 <= i < |intervals| && intervals[i] == one;
      assert intervals[i].from <= day <= intervals[i].to;
    }
  }

  /** The union denotes exactly the days of its input, whatever the input, and
      leaves at least one uncovered day between any two of its intervals. */
  lemma UnionDenotesItsInput(intervals: seq<Interval>)
    ensures SameDays(UnionOf(intervals), intervals)
    ensures Apart(UnionOf(intervals))
    ensures Forwards(intervals) ==> Forwards(UnionOf(intervals))
  {
    SoonerIsAnOrder();
    SortIsOrdered(Sooner, intervals);
    MergeIsApart(Sort(Sooner, intervals));
    SortKeepsDays(intervals);
  }

  /** A set of days has at most one form that is forwards and apart. */
  lemma {:induction false} NormalFormIsUnique(a: seq<Interval>, b: seq<Interval>)
    requires Forwards(a) && Apart(a) && Forwards(b) && Apart(b)
    requires SameDays(a, b)
    ensures a == b
    decreases |a|
  {
    if a == [] {
      if b != [] {
        assert Covered(b, b[0].from);
      }
    } else {
      assert Covered(a, a[0].from);
      var i :| 0 <= i < |b| && b[i].from <= a[0].from <= b[i].to;
      assert Covered(b, b[0].from);
      var j :| 0 <= j < |a| && a[j].from <= b[0].from <= a[j].to;
      assert a[0].from == b[0].from;
      FirstEndsTogether(a, b);
      FirstEndsTogether(b, a);
      RestSameDays(a, b);
      NormalFormIsUnique(a[1..], b[1..]);
    }
  }

  lemma GapAfter(a: seq<Interval>, i: nat)
    requires Apart(a) && i < |a| && a[i].from <= a[i].to
    ensures !Covered(a, a[i].to + 1)
  {
    forall j | 0 <= j < |a| ensures !(a[j].from <= a[i].to + 1 <= a[j].to) {
      if j < i {
        assert a[j].to + 1 < a[i].from;
      } else if i < j {
        assert a[i].to + 1 < a[j].from;
      }
    }
  }

  lemma CoveredAt(a: seq<Interval>, i: nat, day: int)
    requires i < |a| && a[i].from <= day <= a[i].to
    ensures Covered(a, day)
  {
  }

  lemma FirstEndsTogether(a: seq<Interval>, b: seq<Interval>)
    requires a != [] && b != [] && Forwards(a) && Apart(a) && Forwards(b) && Apart(b)
    requires a[0].from == b[0].from && SameDays(a, b)
    ensures a[0].to <= b[0].to
  {
    assert b[0].from <= b[0].to;
    if b[0].to < a[0].to {
      CoveredAt(a, 0, b[0].to + 1);
    }
    GapAfter(b, 0);
  }

  lemma RestSameDays(a: seq<Interval>, b: seq<Interval>)
    requires a != [] && b != [] && Forwards(a) && Apart(a) && Forwards(b) && Apart(b)
    requires a[0] == b[0] && SameDays(a, b)
    ensures SameDays(a[1..], b[1..])
  {
    forall day ensures Covered(a[1..], day) <==> Covered(b[1..], day) {
      CoveredInRest(a, day);
      CoveredInRest(b, day);
    }
  }

  lemma CoveredInRest(a: seq<Interval>, day: int)
    requires a != [] && Forwards(a) && Apart(a)
    ensures Covered(a[1..], day) <==> Covered(a, day) && day > a[0].to
  {
    if Covered(a[1..], day) {
      var i :| 0 <= i < |a[1..]| && a[1..][i].from <= day <= a[1..][i].to;
      assert a[i + 1].from <= day <= a[i + 1].to;
    }
    if Covered(a, day) && day > a[0].to {
      var i :| 0 <= i < |a| && a[i].from <= day <= a[i].to;
      assert a[1..][i - 1].from <= day <= a[1..][i - 1].to;
    }
  }

  /** Two inputs have the same union exactly when they denote the same days. */
  lemma UnionIsCanonical(a: seq<Interval>, b: seq<Interval>)
    requires Forwards(a) && Forwards(b)
    ensures UnionOf(a) == UnionOf(b) <==> SameDays(a, b)
    ensures UnionOf(UnionOf(a)) == UnionOf(a)
  {
    UnionDenotesItsInput(a);
    UnionDenotesItsInput(b);
    UnionDenotesItsInput(UnionOf(a));
    if SameDays(a, b) {
      NormalFormIsUnique(UnionOf(a), UnionOf(b));
    }
    NormalFormIsUnique(UnionOf(UnionOf(a)), UnionOf(a));
  }

  // ------------------------------------------------------------- covering

  predicate Covers(intervals: seq<Interval>, from: int, to: int) {
    exists one :: one in UnionOf(intervals) && one.from <= from && one.to >= to
  }

  /** A stretch is covered exactly when every single day of it is. */
  lemma CoversEveryDay(intervals: seq<Interval>, from: int, to: int)
    requires from <= to
    ensures Covers(intervals, from, to) <==> forall day :: from <= day <= to ==> Covered(intervals, day)
  {
    var union := UnionOf(intervals);
    UnionDenotesItsInput(intervals);
    if Covers(intervals, from, to) {
      var one :| one in union && one.from <= from && one.to >= to;
      forall day | from <= day <= to ensures Covered(intervals, day) {
        CoveredByMember(union, day);
      }
    }
    if forall day :: from <= day <= to ==> Covered(intervals, day) {
      assert Covered(union, from);
      var i :| 0 <= i < |union| && union[i].from <= from <= union[i].to;
      assert union[i].to < to ==> Covered(intervals, union[i].to + 1);
      GapAfter(union, i);
      assert union[i] in union;
    }
  }

  // ------------------------------------------------------ complete months

  /** Evidence of this account that proves anything: its start is known and it
      does not run backwards. */
  predicate Proves(accountId: string, one: Evidence) {
    one.accountId == accountId && one.fromDate.Some? && one.fromDate.value <= one.toDate
  }

  function IntervalsOf(evidence: seq<Evidence>, accountId: string): seq<Interval> {
    if evidence == [] then []
    else
      var n := |evidence| - 1;
      IntervalsOf(evidence[..n], accountId) +
      if Proves(accountId, evidence[n]) then [Interval(evidence[n].fromDate.value, evidence[n].toDate)] else []
  }

  function Proven(evidence: seq<Evidence>, accountId: string): seq<Interval> {
    UnionOf(IntervalsOf(evidence, accountId))
  }

  method ProvenIntervals(evidence: seq<Evidence>, accountId: string) returns (r: seq<Interval>)
    ensures r == Proven(evidence, accountId)
  {
    var intervals := [];
    for i := 0 to |evidence|
      invariant intervals == IntervalsOf(evidence[..i], accountId)
    {
      assert evidence[..i + 1][..i] == evidence[..i];
      var one := evidence[i];
      if one.accountId != accountId { continue; }
      if one.fromDate.None? { continue; }
      if one.fromDate.value > one.toDate { continue; }
      intervals := intervals + [Interval(one.fromDate.value, one.toDate)];
    }
    assert evidence[..|evidence|] == evidence;
    r := Union(intervals);
  }

  /** The account has evidence of known start that covers this day. */
  ghost predicate DayProven(evidence: seq<Evidence>, accountId: string, day: int) {
    exists one :: one in evidence && Proves(accountId, one) && one.fromDate.value <= day <= one.toDate
  }

  lemma {:induction false} IntervalsOfProven(evidence: seq<Evidence>, accountId: string)
    ensures Forwards(IntervalsOf(evidence, accountId))
    ensures forall day :: Covered(IntervalsOf(evidence, accountId), day) <==> DayProven(evidence, accountId, day)
  {
    if evidence != [] {
      var n := |evidence| - 1;
      IntervalsOfProven(evidence[..n], accountId);
      var before, all := IntervalsOf(evidence[..n], accountId), IntervalsOf(evidence, accountId);
      assert evidence == evidence[..n] + [evidence[n]];
      forall day ensures Covered(all, day) <==> DayProven(evidence, accountId, day) {
        CoveredByMember(all, day);
        CoveredByMember(before, day);
      }
    }
  }

  /** A participant is an account not first seen after the month ended. */
  predicate Participates(account: Lifetime, last: int) {
    !(account.firstSeen.Some? && account.firstSeen.value > last)
  }

  predicate HeldBy(evidence: seq<Evidence>, account: Lifetime, first: int, last: int) {
    Covers(Proven(evidence, account.accountId), first, last)
  }

  /** Somebody takes part, and every participant has every day proven. */
  ghost predicate CompleteFor(evidence: seq<Evidence>, lifetimes: seq<Lifetime>, first: int, last: int) {
    && (exists account :: account in lifetimes && Participates(account, last))
    && (forall account, day :: account in lifetimes && Participates(account, last) && first <= day <= last
          ==> DayProven(evidence, account.accountId, day))
  }

  ghost predicate Complete(evidence: seq<Evidence>, lifetimes: seq<Lifetime>, month: int) {
    CompleteFor(evidence, lifetimes, Calendar.MonthStart(month), Calendar.MonthEnd(month))
  }

  lemma HeldEveryDay(evidence: seq<Evidence>, account: Lifetime, first: int, last: int)
    requires first <= last
    ensures HeldBy(evidence, account, first, last) <==>
            forall day :: first <= day <= last ==> DayProven(evidence, account.accountId, day)
  {
    IntervalsOfProven(evidence, account.accountId);
    UnionDenotesItsInput(IntervalsOf(evidence, account.accountId));
    CoversEveryDay(Proven(evidence, account.accountId), first, last);
  }

  ghost predicate SomeoneParticipates(accounts: seq<Lifetime>, last: int) {
    exists account :: account in accounts && Participates(account, last)
  }

  ghost predicate AllHold(evidence: seq<Evidence>, accounts: seq<Lifetime>, first: int, last: int) {
    forall account :: account in accounts && Participates(account, last) ==> HeldBy(evidence, account, first, last)
  }

  lemma CompleteByAccount(evidence: seq<Evidence>, lifetimes: seq<Lifetime>, first: int, last: int)
    requires first <= last
    ensures CompleteFor(evidence, lifetimes, first, last) <==>
            SomeoneParticipates(lifetimes, last) && AllHold(evidence, lifetimes, first, last)
  {
    forall account | account in lifetimes {
      HeldEveryDay(evidence, account, first, last);
    }
  }

  lemma OneMoreAccount(evidence: seq<Evidence>, accounts: seq<Lifetime>, k: nat, first: int, last: int)
    requires k < |accounts|
    ensures SomeoneParticipates(accounts[..k + 1], last) <==>
            SomeoneParticipates(accounts[..k], last) || Participates(accounts[k], last)
    ensures AllHold(evidence, accounts[..k + 1], first, last) <==>
            && AllHold(evidence, accounts[..k], first, last)
            && (Participates(accounts[k], last) ==> HeldBy(evidence, accounts[k], first, last))
  {
    assert accounts[..k + 1] == accounts[..k] + [accounts[k]];
  }

  /** The loop over the accounts of one month, which stops at the first that fails. */
  method EveryAccountHolds(evidence: seq<Evidence>, lifetimes: seq<Lifetime>, first: int, last: int)
    returns (yes: bool)
    ensures yes <==> SomeoneParticipates(lifetimes, last) && AllHold(evidence, lifetimes, first, last)
  {
    var participating := 0;
    for i := 0 to |lifetimes|
      invariant AllHold(evidence, lifetimes[..i], first, last)
      invariant participating > 0 <==> SomeoneParticipates(lifetimes[..i], last)
      invariant participating >= 0
    {
      OneMoreAccount(evidence, lifetimes, i, first, last);
      var account := lifetimes[i];
      if account.firstSeen.Some? && account.firstSeen.value > last { continue; }
      participating := participating + 1;
      var proven := ProvenIntervals(evidence, account.accountId);
      if !Covers(proven, first, last) {
        assert lifetimes[i] in lifetimes;
        return false;
      }
    }
    assert lifetimes[..|lifetimes|] == lifetimes;
    yes := participating > 0;
  }

  lemma MonthRuns(month: int)
    ensures Calendar.MonthStart(month) <= Calendar.MonthEnd(month)
  {
    Calendar.DaysInMonthBounds(month / 12, month % 12 + 1);
  }

  /** A month is complete exactly when some account takes part in it and every
      account that does has every day of it covered by evidence of known start. */
  method CompleteMonths(evidence: seq<Evidence>, lifetimes: seq<Lifetime>, months: seq<int>)
    returns (complete: set<int>)
    ensures forall month :: month in complete <==> month in months && Complete(evidence, lifetimes, month)
  {
    complete := {};
    for m := 0 to |months|
      invariant forall month :: month in complete <==> month in months[..m] && Complete(evidence, lifetimes, month)
    {
      assert months[..m + 1] == months[..m] + [months[m]];
      var first, last := Calendar.MonthStart(months[m]), Calendar.MonthEnd(months[m]);
      var yes := EveryAccountHolds(evidence, lifetimes, first, last);
      MonthRuns(months[m]);
      CompleteByAccount(evidence, lifetimes, first, last);
      if yes {
        complete := complete + {months[m]};
      }
    }
    assert months[..|months|] == months;
  }

  /** Reading more never takes a month back. */
  lemma MoreEvidenceKeepsAMonth(evidence: seq<Evidence>, more: seq<Evidence>, lifetimes: seq<Lifetime>, month: int)
    requires forall one :: one in evidence ==> one in more
    requires Complete(evidence, lifetimes, month)
    ensures Complete(more, lifetimes, month)
  {
    var first, last := Calendar.MonthStart(month), Calendar.MonthEnd(month);
    forall account, day | account in lifetimes && Participates(account, last) && first <= day <= last
      ensures DayProven(more, account.accountId, day)
    {
      assert DayProven(evidence, account.accountId, day);
    }
  }
}
