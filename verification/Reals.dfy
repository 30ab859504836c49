/** Facts about real arithmetic, with products kept behind a name. */
module Reals {
  function RMin(x: real, y: real): real {
    if x <= y then x else y
  }

  function RMax(x: real, y: real): real {
    if x >= y then x else y
  }

  function Times(x: real, y: real): real {
    x * y
  }

  lemma Scale(x: real, y: real, m: real)
    requires x <= y && m >= 0.0
    ensures x * m <= y * m
  {
  }

  lemma ScaleLeft(x: real, y: real, m: real)
    requires x <= y
    ensures m >= 0.0 ==> m * x <= m * y
    ensures m <= 0.0 ==> m * x >= m * y
  {
  }

  lemma TimesOrdered(m: real, x: real, y: real)
    requires x <= y && m >= 0.0
    ensures Times(m, x) <= Times(m, y)
  {
    ScaleLeft(x, y, m);
  }

  lemma TimesReversed(m: real, x: real, y: real)
    requires x <= y && m <= 0.0
    ensures Times(m, x) >= Times(m, y)
  {
    ScaleLeft(x, y, m);
  }

  lemma TimesRises(x: real, y: real, m: real)
    requires x <= y && m >= 0.0
    ensures Times(x, m) <= Times(y, m)
  {
    Scale(x, y, m);
  }

  lemma TimesNonnegative(x: real, y: real)
    requires x >= 0.0 && y >= 0.0
    ensures Times(x, y) >= 0.0
  {
    ProductNonnegative(x, y);
  }

  lemma Divide(x: real, y: real, n: real)
    requires x <= y && n > 0.0
    ensures x / n <= y / n
  {
  }

  lemma AddQuotients(x: real, y: real, n: real)
    requires n != 0.0
    ensures (x + y) / n == x / n + y / n
  {
  }

  lemma SelfQuotient(x: real)
    requires x != 0.0
    ensures x / x == 1.0
  {
  }

  lemma ProductNonnegative(x: real, y: real)
    requires x >= 0.0 && y >= 0.0
    ensures x * y >= 0.0
  {
  }

  lemma ProductPositive(x: real, y: real)
    requires x > 0.0 && y > 0.0
    ensures Times(x, y) > 0.0
  {
  }

  lemma Rearrange(x: real, y: real, z: real)
    ensures (x * y) * z == y * (x * z)
  {
  }

  lemma Commute(x: real, y: real)
    ensures Times(x, y) == Times(y, x)
  {
  }

  lemma AddTimes(x: real, y: real, k: real)
    ensures Times(x + y, k) == Times(x, k) + Times(y, k)
  {
  }

  lemma TimesAdd(w: real, x: real, y: real)
    ensures Times(w, x + y) == Times(w, x) + Times(w, y)
  {
  }

  lemma PullOut(x: real, y: real, z: real)
    ensures Times(y, Times(x, z)) == Times(x, Times(y, z))
  {
    Rearrange(x, y, z);
    Rearrange(y, x, z);
    assert x * y == y * x;
  }

  lemma SwapFactors(x: real, y: real, z: real)
    ensures Times(Times(x, y), z) == Times(Times(x, z), y)
  {
    Rearrange(x, y, z);
    Commute(y, Times(x, z));
  }
}
