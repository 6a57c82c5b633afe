/** The order JavaScript compares strings in. */
module Strings {

  /** How JavaScript compares strings: by the first unit that differs. */
  predicate TextLess(a: string, b: string) {
    if b == [] then false
    else if a == [] then true
    else if a[0] != b[0] then a[0] < b[0]
    else TextLess(a[1..], b[1..])
  }

  lemma {:induction false} TextLessConcat(a: string, b: string, c: string, d: string)
    requires |a| == |b|
    ensures TextLess(a + c, b + d) <==> TextLess(a, b) || (a == b && TextLess(c, d))
  {
    if a == [] {
      assert a + c == c && b + d == d;
    } else {
      TextLessConcat(a[1..], b[1..], c, d);
      assert (a + c)[1..] == a[1..] + c && (b + d)[1..] == b[1..] + d;
      assert a == [a[0]] + a[1..] && b == [b[0]] + b[1..];
    }
  }

  lemma OneCharacter(a: char, b: char)
    ensures TextLess([a], [b]) <==> a < b
  {
    assert [a][1..] == [] && [b][1..] == [];
  }

  /** It is a strict total order. */
  lemma {:induction false} TextLessIsTotal(a: string, b: string)
    ensures !(TextLess(a, b) && TextLess(b, a))
    ensures TextLess(a, b) || TextLess(b, a) || a == b
  {
    if a != [] && b != [] {
      TextLessIsTotal(a[1..], b[1..]);
      assert a == [a[0]] + a[1..] && b == [b[0]] + b[1..];
    }
  }

  lemma {:induction false} TextLessIsTransitive(a: string, b: string, c: string)
    requires TextLess(a, b) && TextLess(b, c)
    ensures TextLess(a, c)
  {
    if a != [] && a[0] == b[0] == c[0] {
      TextLessIsTransitive(a[1..], b[1..], c[1..]);
    }
  }
}
