/** Small shared vocabulary: an optional value, filtering, counting and the
    stable sort that `Array.prototype.sort` is. */
module Lists {

  datatype Option<+T> = None | Some(value: T) {
    function GetOr(default: T): T {
      if Some? then value else default
    }
  }

  function Min(a: int, b: int): int {
    if a <= b then a else b
  }

  function Max(a: int, b: int): int {
    if a >= b then a else b
  }

  function Filter<T(!new)>(p: T -> bool, s: seq<T>): (r: seq<T>)
    ensures forall x :: x in r <==> x in s && p(x)
    ensures |r| <= |s|
  {
    if s == [] then []
    else
      assert s == [s[0]] + s[1..];
      if p(s[0]) then [s[0]] + Filter(p, s[1..]) else Filter(p, s[1..])
  }

  lemma FilterStep<T(!new)>(p: T -> bool, x: T, s: seq<T>)
    ensures Filter(p, [x] + s) == (if p(x) then [x] else []) + Filter(p, s)
  {
    assert ([x] + s)[1..] == s;
  }

  lemma {:induction false} FilterConcat<T(!new)>(p: T -> bool, a: seq<T>, b: seq<T>)
    ensures Filter(p, a + b) == Filter(p, a) + Filter(p, b)
  {
    if a == [] {
      assert a + b == b;
    } else {
      var x, rest := a[0], a[1..];
      calc {
        Filter(p, a + b);
      == { assert a + b == [x] + (rest + b); FilterStep(p, x, rest + b); }
        (if p(x) then [x] else []) + Filter(p, rest + b);
      == { FilterConcat(p, rest, b); }
        (if p(x) then [x] else []) + (Filter(p, rest) + Filter(p, b));
      == { assert a == [x] + rest; FilterStep(p, x, rest); }
        Filter(p, a) + Filter(p, b);
      }
    }
  }

  /** Appending one element to what is filtered: the step a loop takes. */
  lemma FilterSnoc<T(!new)>(p: T -> bool, s: seq<T>, k: nat)
    requires k < |s|
    ensures Filter(p, s[..k + 1]) == Filter(p, s[..k]) + if p(s[k]) then [s[k]] else []
  {
    FilterConcat(p, s[..k], [s[k]]);
    assert s[..k + 1] == s[..k] + [s[k]];
  }

  function Count<T(!new)>(p: T -> bool, s: seq<T>): nat {
    |Filter(p, s)|
  }

  lemma CountConcat<T(!new)>(p: T -> bool, a: seq<T>, b: seq<T>)
    ensures Count(p, a + b) == Count(p, a) + Count(p, b)
  {
    FilterConcat(p, a, b);
  }

  function Map<S, T>(f: S -> T, s: seq<S>): (r: seq<T>)
    ensures |r| == |s|
    ensures forall i :: 0 <= i < |s| ==> r[i] == f(s[i])
  {
    seq(|s|, i requires 0 <= i < |s| => f(s[i]))
  }

  // ------------------------------------------------------------- sorting

  /** `before(x, y)` is a comparator answering less than nought. */
  ghost predicate WeakOrder<T(!new)>(before: (T, T) -> bool) {
    && (forall x, y :: before(x, y) ==> !before(y, x))
    && (forall x, y, z :: !before(y, x) && !before(z, y) ==> !before(z, x))
  }

  ghost predicate Ordered<T>(before: (T, T) -> bool, s: seq<T>) {
    forall i, j :: 0 <= i < j < |s| ==> !before(s[j], s[i])
  }

  function Insert<T>(before: (T, T) -> bool, x: T, s: seq<T>): (r: seq<T>)
    ensures multiset(r) == multiset{x} + multiset(s)
    ensures |r| == |s| + 1
  {
    if s == [] || !before(s[0], x) then [x] + s
    else
      assert s == [s[0]] + s[1..];
      [s[0]] + Insert(before, x, s[1..])
  }

  /** The stable sort: equal elements keep the order they came in. */
  function Sort<T>(before: (T, T) -> bool, s: seq<T>): (r: seq<T>)
    ensures multiset(r) == multiset(s)
    ensures |r| == |s|
  {
    if s == [] then []
    else
      assert s == [s[0]] + s[1..];
      Insert(before, s[0], Sort(before, s[1..]))
  }

  lemma {:induction false} InsertKeepsOrder<T(!new)>(before: (T, T) -> bool, x: T, s: seq<T>)
    requires WeakOrder(before) && Ordered(before, s)
    ensures Ordered(before, Insert(before, x, s))
  {
    if s == [] || !before(s[0], x) {
    } else {
      InsertKeepsOrder(before, x, s[1..]);
      var rest := Insert(before, x, s[1..]);
      forall j | 0 <= j < |rest| ensures !before(rest[j], s[0]) {
        assert rest[j] in multiset(rest);
        if rest[j] != x {
          assert rest[j] in multiset(s[1..]);
          assert rest[j] in s[1..];
        }
      }
    }
  }

  lemma {:induction false} SortIsOrdered<T(!new)>(before: (T, T) -> bool, s: seq<T>)
    requires WeakOrder(before)
    ensures Ordered(before, Sort(before, s))
  {
    if s != [] {
      SortIsOrdered(before, s[1..]);
      InsertKeepsOrder(before, s[0], Sort(before, s[1..]));
    }
  }

  ghost predicate Precedes<T>(s: seq<T>, a: T, b: T) {
    exists i, j :: 0 <= i < j < |s| && s[i] == a && s[j] == b
  }

  lemma PrecedesCons<T>(x: T, s: seq<T>, a: T, b: T)
    ensures Precedes([x] + s, a, b) <==> Precedes(s, a, b) || (a == x && b in s)
  {
    if Precedes(s, a, b) {
      var i, j :| 0 <= i < j < |s| && s[i] == a && s[j] == b;
      assert ([x] + s)[i + 1] == a && ([x] + s)[j + 1] == b;
    }
    if a == x && b in s {
      var j :| 0 <= j < |s| && s[j] == b;
      assert ([x] + s)[0] == a && ([x] + s)[j + 1] == b;
    }
  }

  /** Whatever is inserted goes before all that do not come before it, and after
      all that do, and leaves the rest as it was. */
  lemma {:induction false} InsertPlaces<T(!new)>(before: (T, T) -> bool, x: T, s: seq<T>, a: T, b: T)
    requires WeakOrder(before) && Ordered(before, s)
    ensures Precedes(s, a, b) ==> Precedes(Insert(before, x, s), a, b)
    ensures b in s && !before(b, x) ==> Precedes(Insert(before, x, s), x, b)
    ensures a in s && before(a, x) ==> Precedes(Insert(before, x, s), a, x)
  {
    if s == [] || !before(s[0], x) {
      PrecedesCons(x, s, a, b);
      PrecedesCons(x, s, x, b);
    } else {
      var rest := Insert(before, x, s[1..]);
      assert s == [s[0]] + s[1..];
      InsertPlaces(before, x, s[1..], a, b);
      PrecedesCons(s[0], s[1..], a, b);
      PrecedesCons(s[0], rest, a, b);
      PrecedesCons(s[0], rest, x, b);
      PrecedesCons(s[0], rest, a, x);
      assert multiset(rest) == multiset{x} + multiset(s[1..]);
      assert x in multiset(rest);
      assert b in s[1..] ==> b in multiset(rest);
    }
  }

  /** The sort puts first what comes first, or came first of two that are equal. */
  lemma {:induction false} SortIsStable<T(!new)>(before: (T, T) -> bool, s: seq<T>, a: T, b: T)
    requires WeakOrder(before) && a in s && b in s
    requires before(a, b) || (!before(b, a) && Precedes(s, a, b))
    ensures Precedes(Sort(before, s), a, b)
  {
    var x, rest := s[0], s[1..];
    assert s == [x] + rest;
    PrecedesCons(x, rest, a, b);
    SortIsOrdered(before, rest);
    SortMembers(before, rest);
    InsertPlaces(before, x, Sort(before, rest), a, b);
    if a in rest && b in rest && (before(a, b) || Precedes(rest, a, b)) {
      SortIsStable(before, rest, a, b);
    }
  }

  lemma SortMembers<T(!new)>(before: (T, T) -> bool, s: seq<T>)
    ensures forall x :: x in Sort(before, s) <==> x in s
  {
    forall x ensures x in Sort(before, s) <==> x in s {
      assert x in multiset(s) <==> x in s;
      assert x in multiset(Sort(before, s)) <==> x in Sort(before, s);
    }
  }

  /** Where a sort puts an element that arrives last: after all it ties with. */
  function PlaceOf<T>(before: (T, T) -> bool, x: T, s: seq<T>): (p: nat)
    ensures p <= |s|
    ensures forall i :: 0 <= i < p ==> !before(x, s[i])
    ensures p < |s| ==> before(x, s[p])
  {
    if s == [] || before(x, s[0]) then 0 else 1 + PlaceOf(before, x, s[1..])
  }

  function PlaceLast<T>(before: (T, T) -> bool, x: T, s: seq<T>): seq<T> {
    var p := PlaceOf(before, x, s);
    s[..p] + [x] + s[p..]
  }

  lemma PlaceLastSteps<T>(before: (T, T) -> bool, x: T, s: seq<T>)
    requires s != []
    ensures PlaceLast(before, x, s) == if before(x, s[0]) then [x] + s else [s[0]] + PlaceLast(before, x, s[1..])
  {
    if !before(x, s[0]) {
      var p := PlaceOf(before, x, s[1..]);
      assert PlaceOf(before, x, s) == p + 1;
      assert s[..p + 1] == [s[0]] + s[1..][..p];
      assert s[p + 1..] == s[1..][p..];
    }
  }

  lemma {:induction false} InsertAndPlace<T(!new)>(before: (T, T) -> bool, y: T, x: T, s: seq<T>)
    requires WeakOrder(before)
    ensures Insert(before, y, PlaceLast(before, x, s)) == PlaceLast(before, x, Insert(before, y, s))
  {
    if s == [] {
      PlaceLastSteps(before, x, [y]);
      assert PlaceLast(before, x, []) == [x];
      assert Insert(before, y, [x]) == if before(x, y) then [x] + Insert(before, y, []) else [y] + [x];
    } else {
      InsertAndPlace(before, y, x, s[1..]);
      PlaceLastSteps(before, x, s);
      PlaceLastSteps(before, x, Insert(before, y, s));
      var placed := PlaceLast(before, x, s[1..]);
      assert ([s[0]] + placed)[1..] == placed;
      assert ([x] + s)[1..] == s;
      assert before(s[0], y) ==> Insert(before, y, s)[1..] == Insert(before, y, s[1..]);
      assert !before(s[0], y) ==> Insert(before, y, s)[1..] == s;
    }
  }

  /** Sorting after an arrival is the old order with the arrival put in place. */
  lemma {:induction false} SortOfArrival<T(!new)>(before: (T, T) -> bool, s: seq<T>, x: T)
    requires WeakOrder(before)
    ensures Sort(before, s + [x]) == PlaceLast(before, x, Sort(before, s))
  {
    if s != [] {
      SortOfArrival(before, s[1..], x);
      assert (s + [x])[1..] == s[1..] + [x];
      InsertAndPlace(before, s[0], x, Sort(before, s[1..]));
    }
  }

  /** Sorting does not look past the comparator, so changing elements in ways
      the comparator cannot see commutes with it. */
  lemma {:induction false} SortMap<T(!new)>(before: (T, T) -> bool, f: T -> T, s: seq<T>)
    requires forall x, y :: before(f(x), f(y)) == before(x, y)
    ensures Sort(before, Map(f, s)) == Map(f, Sort(before, s))
  {
    if s == [] {
    } else {
      SortMap(before, f, s[1..]);
      assert Map(f, s)[1..] == Map(f, s[1..]);
      InsertMap(before, f, s[0], Sort(before, s[1..]));
    }
  }

  lemma MapCons<S, T>(f: S -> T, x: S, s: seq<S>)
    ensures Map(f, [x] + s) == [f(x)] + Map(f, s)
  {
  }

  lemma {:induction false} InsertMap<T(!new)>(before: (T, T) -> bool, f: T -> T, x: T, s: seq<T>)
    requires forall x, y :: before(f(x), f(y)) == before(x, y)
    ensures Insert(before, f(x), Map(f, s)) == Map(f, Insert(before, x, s))
  {
    if s == [] || !before(s[0], x) {
      MapCons(f, x, s);
    } else {
      var rest := s[1..];
      assert s == [s[0]] + rest;
      MapCons(f, s[0], rest);
      assert Map(f, s)[1..] == Map(f, rest);
      assert before(f(s[0]), f(x));
      InsertMap(before, f, x, rest);
      MapCons(f, s[0], Insert(before, x, rest));
    }
  }

  lemma {:induction false} FilterInsert<T(!new)>(before: (T, T) -> bool, p: T -> bool, x: T, s: seq<T>)
    requires WeakOrder(before) && Ordered(before, s)
    ensures Filter(p, Insert(before, x, s)) == if p(x) then Insert(before, x, Filter(p, s)) else Filter(p, s)
  {
    if s == [] {
    } else if !before(s[0], x) {
      var kept := Filter(p, s);
      assert ([x] + s)[1..] == s;
      if p(x) && kept != [] {
        assert kept[0] in s;
        assert !before(kept[0], s[0]);
      }
    } else {
      var rest := Insert(before, x, s[1..]);
      FilterInsert(before, p, x, s[1..]);
      assert ([s[0]] + rest)[1..] == rest;
      if p(s[0]) {
        assert ([s[0]] + Filter(p, s[1..]))[1..] == Filter(p, s[1..]);
      }
    }
  }

  /** A stable sort of what is kept is what is kept of the sort. */
  lemma {:induction false} SortFilter<T(!new)>(before: (T, T) -> bool, p: T -> bool, s: seq<T>)
    requires WeakOrder(before)
    ensures Sort(before, Filter(p, s)) == Filter(p, Sort(before, s))
  {
    if s != [] {
      SortFilter(before, p, s[1..]);
      SortIsOrdered(before, s[1..]);
      FilterInsert(before, p, s[0], Sort(before, s[1..]));
      assert p(s[0]) ==> Filter(p, s)[1..] == Filter(p, s[1..]);
    }
  }

  ghost predicate Increasing(s: seq<int>) {
    forall i, j :: 0 <= i < j < |s| ==> s[i] < s[j]
  }

  /** An increasing list is determined by its members. */
  lemma {:induction false} IncreasingIsUnique(a: seq<int>, b: seq<int>)
    requires Increasing(a) && Increasing(b)
    requires forall x :: x in a <==> x in b
    ensures a == b
  {
    assert (a != [] ==> a[0] in a) && (b != [] ==> b[0] in b);
    if a == [] {
    } else {
      assert a[0] in b && b[0] in a;
      assert a[0] == b[0];
      forall x ensures x in a[1..] <==> x in b[1..] {
        assert x in a[1..] <==> x in a && x != a[0];
        assert x in b[1..] <==> x in b && x != b[0];
      }
      IncreasingIsUnique(a[1..], b[1..]);
    }
  }

  // ---------------------------------------------------------------- sums

  function SumOver<T>(f: T -> int, s: seq<T>): int {
    if s == [] then 0 else SumOver(f, s[..|s| - 1]) + f(s[|s| - 1])
  }

  lemma {:induction false} SumConcat<T>(f: T -> int, a: seq<T>, b: seq<T>)
    ensures SumOver(f, a + b) == SumOver(f, a) + SumOver(f, b)
  {
    if b == [] {
      assert a + b == a;
    } else {
      SumConcat(f, a, b[..|b| - 1]);
      assert (a + b)[..|a + b| - 1] == a + b[..|b| - 1];
    }
  }

  /** A sum does not depend on the order. */
  lemma {:induction false} SumPermutes<T>(f: T -> int, a: seq<T>, b: seq<T>)
    requires multiset(a) == multiset(b)
    ensures SumOver(f, a) == SumOver(f, b)
    decreases |a|
  {
    if a == [] {
      assert |multiset(a)| == |a| && |multiset(b)| == |b|;
    } else {
      var n := |a| - 1;
      assert a[n] in multiset(a);
      var i :| 0 <= i < |b| && b[i] == a[n];
      var rest := b[..i] + b[i + 1..];
      assert a == a[..n] + [a[n]];
      assert b == b[..i] + [b[i]] + b[i + 1..];
      assert multiset(a[..n]) == multiset(a) - multiset{a[n]};
      assert multiset(rest) == multiset(b) - multiset{b[i]};
      SumPermutes(f, a[..n], rest);
      SumConcat(f, b[..i] + [b[i]], b[i + 1..]);
      SumConcat(f, b[..i], [b[i]]);
      SumConcat(f, b[..i], b[i + 1..]);
    }
  }

  lemma {:induction false} SumBounded<T(!new)>(f: T -> int, g: T -> int, s: seq<T>)
    requires forall x :: x in s ==> f(x) <= g(x)
    ensures SumOver(f, s) <= SumOver(g, s)
  {
    if s != [] {
      SumBounded(f, g, s[..|s| - 1]);
    }
  }

  lemma {:induction false} SumAgrees<T(!new)>(f: T -> int, g: T -> int, s: seq<T>)
    requires forall x :: x in s ==> f(x) == g(x)
    ensures SumOver(f, s) == SumOver(g, s)
  {
    if s != [] {
      SumAgrees(f, g, s[..|s| - 1]);
    }
  }

  lemma {:induction false} SumOfNought<T(!new)>(f: T -> int, s: seq<T>)
    requires forall x :: x in s ==> f(x) == 0
    ensures SumOver(f, s) == 0
  {
    if s != [] {
      SumOfNought(f, s[..|s| - 1]);
    }
  }
}
