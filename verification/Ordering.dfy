/** Code-point order on strings, as the source compares identifiers. */
module Ordering {
  predicate LexLess(a: string, b: string) {
    if b == "" then false
    else if a == "" then true
    else if a[0] != b[0] then a[0] < b[0]
    else LexLess(a[1..], b[1..])
  }

  lemma {:induction false} LexTotal(a: string, b: string)
    ensures LexLess(a, b) || a == b || LexLess(b, a)
    ensures !(LexLess(a, b) && LexLess(b, a))
    ensures !LexLess(a, a)
  {
    if a != "" {
      LexTotal(a[1..], a[1..]);
    }
    if a != "" && b != "" {
      LexTotal(a[1..], b[1..]);
      if a[0] == b[0] && a[1..] == b[1..] {
        assert a == [a[0]] + a[1..] && b == [b[0]] + b[1..];
      }
    }
  }

  lemma {:induction false} LexTransitive(a: string, b: string, c: string)
    requires LexLess(a, b) && LexLess(b, c)
    ensures LexLess(a, c)
  {
    if a != "" && a[0] == b[0] && b[0] == c[0] {
      LexTransitive(a[1..], b[1..], c[1..]);
    }
  }

  ghost predicate FirstDiffersAt(a: string, b: string, i: nat) {
    i < |a| && i < |b| && a[..i] == b[..i] && a[i] < b[i]
  }

  /** `a` is a proper beginning of `b`, or is smaller in the first character in which they differ. */
  ghost predicate Earlier(a: string, b: string) {
    a < b || exists i: nat :: FirstDiffersAt(a, b, i)
  }

  lemma {:induction false} LexDecides(a: string, b: string)
    ensures LexLess(a, b) <==> Earlier(a, b)
  {
    if a != "" && b != "" {
      if a[0] == b[0] {
        LexDecides(a[1..], b[1..]);
        EarlierBehind(a[0], a[1..], b[1..]);
        assert a == [a[0]] + a[1..] && b == [a[0]] + b[1..];
      } else if a[0] < b[0] {
        assert FirstDiffersAt(a, b, 0);
      } else if Earlier(a, b) {
        HeadsInOrder(a, b);
      }
    }
  }

  lemma HeadsInOrder(a: string, b: string)
    requires a != "" && b != "" && Earlier(a, b)
    ensures a[0] <= b[0]
  {
    if i: nat :| FirstDiffersAt(a, b, i) {
      assert i > 0 ==> a[..i][0] == b[..i][0];
    }
  }

  /** A common first character does not matter. */
  lemma EarlierBehind(c: char, a: string, b: string)
    ensures Earlier([c] + a, [c] + b) <==> Earlier(a, b)
  {
    var x, y := [c] + a, [c] + b;
    assert x[1..] == a && y[1..] == b;
    assert x < y <==> a < b;
    if i: nat :| FirstDiffersAt(a, b, i) {
      assert x[..i + 1] == [c] + a[..i] && y[..i + 1] == [c] + b[..i];
      assert FirstDiffersAt(x, y, i + 1);
    }
    if i: nat :| FirstDiffersAt(x, y, i) {
      assert i > 0;
      assert a[..i - 1] == x[..i][1..] && b[..i - 1] == y[..i][1..];
      assert FirstDiffersAt(a, b, i - 1);
    }
  }
}
