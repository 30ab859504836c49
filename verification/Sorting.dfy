/** A stable sort, and when its result depends on the elements alone. */
module Sorting {
  /** Insert `x` behind every element it is not less than. */
  function InsertBy<T>(less: (T, T) -> bool, xs: seq<T>, x: T): seq<T> {
    if xs == [] || !less(x, xs[|xs| - 1]) then xs + [x]
    else InsertBy(less, xs[..|xs| - 1], x) + [xs[|xs| - 1]]
  }

  function SortBy<T>(less: (T, T) -> bool, xs: seq<T>): seq<T> {
    if xs == [] then [] else InsertBy(less, SortBy(less, xs[..|xs| - 1]), xs[|xs| - 1])
  }

  ghost predicate AsymmetricOn<T(!new)>(less: (T, T) -> bool, s: multiset<T>) {
    forall a, b :: a in s && b in s ==> !(less(a, b) && less(b, a))
  }

  /** `less` orders the elements of `s` strictly and totally. */
  ghost predicate TotalOn<T(!new)>(less: (T, T) -> bool, s: multiset<T>) {
    && (forall a, b :: a in s && b in s ==> a == b || less(a, b) || less(b, a))
    && AsymmetricOn(less, s)
    && (forall a, b, c :: a in s && b in s && c in s && less(a, b) && less(b, c) ==> less(a, c))
  }

  ghost predicate Distinct<T>(xs: seq<T>) {
    forall i, j :: 0 <= i < j < |xs| ==> xs[i] != xs[j]
  }

  ghost predicate StrictlySorted<T>(less: (T, T) -> bool, xs: seq<T>) {
    forall i, j :: 0 <= i < j < |xs| ==> less(xs[i], xs[j])
  }

  lemma {:induction false} InsertMembers<T>(less: (T, T) -> bool, xs: seq<T>, x: T)
    ensures multiset(InsertBy(less, xs, x)) == multiset(xs) + multiset{x}
  {
    if xs != [] && less(x, xs[|xs| - 1]) {
      InsertMembers(less, xs[..|xs| - 1], x);
      assert xs == xs[..|xs| - 1] + [xs[|xs| - 1]];
    }
  }

  /** Sorting permutes. */
  lemma {:induction false} SortMembers<T>(less: (T, T) -> bool, xs: seq<T>)
    ensures multiset(SortBy(less, xs)) == multiset(xs)
    ensures |SortBy(less, xs)| == |xs|
  {
    if xs != [] {
      SortMembers(less, xs[..|xs| - 1]);
      InsertMembers(less, SortBy(less, xs[..|xs| - 1]), xs[|xs| - 1]);
      assert xs == xs[..|xs| - 1] + [xs[|xs| - 1]];
    }
    assert |multiset(SortBy(less, xs))| == |SortBy(less, xs)| && |multiset(xs)| == |xs|;
  }

  lemma {:induction false} InsertSorts<T(!new)>(less: (T, T) -> bool, xs: seq<T>, x: T, s: multiset<T>)
    requires TotalOn(less, s) && StrictlySorted(less, xs)
    requires x in s && x !in xs && forall y :: y in xs ==> y in s
    ensures StrictlySorted(less, InsertBy(less, xs, x))
  {
    if xs != [] {
      var front, last := xs[..|xs| - 1], xs[|xs| - 1];
      assert last in xs;
      if less(x, last) {
        InsertSorts(less, front, x, s);
        InsertMembers(less, front, x);
        var ys := InsertBy(less, front, x);
        forall i | 0 <= i < |ys| ensures less(ys[i], last) {
          assert ys[i] in multiset(ys);
          if ys[i] != x {
            var k :| 0 <= k < |front| && front[k] == ys[i];
          }
        }
      } else {
        forall i | 0 <= i < |xs| ensures less(xs[i], x) {
          assert xs[i] in xs;
        }
      }
    }
  }

  /** Distinct elements under a total order come out strictly ordered. */
  lemma {:induction false} SortSorts<T(!new)>(less: (T, T) -> bool, xs: seq<T>, s: multiset<T>)
    requires TotalOn(less, s) && Distinct(xs) && forall x :: x in xs ==> x in s
    ensures StrictlySorted(less, SortBy(less, xs))
  {
    if xs != [] {
      var front, last := xs[..|xs| - 1], xs[|xs| - 1];
      SortSorts(less, front, s);
      SortMembers(less, front);
      forall y ensures y in SortBy(less, front) <==> y in front {
        assert y in SortBy(less, front) <==> y in multiset(SortBy(less, front));
        assert y in front <==> y in multiset(front);
      }
      assert last in xs;
      InsertSorts(less, SortBy(less, front), last, s);
    }
  }

  lemma SameFirst<T(!new)>(less: (T, T) -> bool, xs: seq<T>, ys: seq<T>, s: multiset<T>)
    requires AsymmetricOn(less, s) && multiset(xs) == multiset(ys) <= s && xs != [] && ys != []
    requires StrictlySorted(less, xs) && StrictlySorted(less, ys)
    ensures xs[0] == ys[0]
  {
    assert xs[0] in multiset(ys) && ys[0] in multiset(xs);
    var i :| 0 <= i < |ys| && ys[i] == xs[0];
    var j :| 0 <= j < |xs| && xs[j] == ys[0];
    assert i == 0 || j == 0;
  }

  /** Two strictly ordered arrangements of the same elements. */
  ghost predicate BothArrange<T>(less: (T, T) -> bool, xs: seq<T>, ys: seq<T>) {
    StrictlySorted(less, xs) && StrictlySorted(less, ys) && multiset(xs) == multiset(ys)
  }

  lemma RestMembers<T>(xs: seq<T>)
    requires xs != []
    ensures multiset(xs[1..]) == multiset(xs) - multiset{xs[0]}
  {
    assert xs == [xs[0]] + xs[1..];
  }

  lemma RestsArrange<T>(less: (T, T) -> bool, xs: seq<T>, ys: seq<T>)
    requires BothArrange(less, xs, ys) && xs != [] && ys != [] && xs[0] == ys[0]
    ensures BothArrange(less, xs[1..], ys[1..])
    ensures multiset(xs[1..]) <= multiset(xs)
  {
    RestMembers(xs);
    RestMembers(ys);
  }

  lemma SameLength<T>(xs: seq<T>, ys: seq<T>)
    requires multiset(xs) == multiset(ys)
    ensures |xs| == |ys|
  {
    assert |xs| == |multiset(xs)| == |multiset(ys)| == |ys|;
  }

  lemma SameParts<T>(xs: seq<T>, ys: seq<T>)
    requires xs != [] && ys != [] && xs[0] == ys[0] && xs[1..] == ys[1..]
    ensures xs == ys
  {
    assert xs == [xs[0]] + xs[1..] && ys == [ys[0]] + ys[1..];
  }

  /** A strictly ordered arrangement of given elements is unique. */
  lemma {:induction false} SortedUnique<T(!new)>(less: (T, T) -> bool, xs: seq<T>, ys: seq<T>, s: multiset<T>)
    requires AsymmetricOn(less, s) && multiset(xs) <= s && BothArrange(less, xs, ys)
    ensures xs == ys
  {
    SameLength(xs, ys);
    if xs != [] {
      SameFirst(less, xs, ys, s);
      RestsArrange(less, xs, ys);
      SortedUnique(less, xs[1..], ys[1..], s);
      SameParts(xs, ys);
    }
  }

  /** Sorting distinct elements gives the same list whatever order they arrive in. */
  lemma SortForgetsOrder<T(!new)>(less: (T, T) -> bool, xs: seq<T>, ys: seq<T>)
    requires TotalOn(less, multiset(xs)) && multiset(xs) == multiset(ys)
    requires Distinct(xs) && Distinct(ys)
    ensures SortBy(less, xs) == SortBy(less, ys)
  {
    assert forall y :: y in ys ==> y in multiset(ys);
    SortSorts(less, xs, multiset(xs));
    SortSorts(less, ys, multiset(xs));
    SortMembers(less, xs);
    SortMembers(less, ys);
    SortedUnique(less, SortBy(less, xs), SortBy(less, ys), multiset(xs));
  }

  ghost predicate WeaklySorted<T>(less: (T, T) -> bool, xs: seq<T>) {
    forall i, j :: 0 <= i < j < |xs| ==> !less(xs[j], xs[i])
  }

  lemma {:induction false} InsertWeakly<T(!new)>(less: (T, T) -> bool, xs: seq<T>, x: T, s: multiset<T>)
    requires TotalOn(less, s) && WeaklySorted(less, xs)
    requires x in s && forall y :: y in xs ==> y in s
    ensures WeaklySorted(less, InsertBy(less, xs, x))
  {
    if xs != [] {
      var front, last := xs[..|xs| - 1], xs[|xs| - 1];
      assert last in xs;
      if less(x, last) {
        InsertWeakly(less, front, x, s);
        InsertMembers(less, front, x);
        var ys := InsertBy(less, front, x);
        forall i | 0 <= i < |ys| ensures !less(last, ys[i]) {
          assert ys[i] in multiset(ys);
          if ys[i] != x {
            var k :| 0 <= k < |front| && front[k] == ys[i];
          }
        }
      } else {
        forall i | 0 <= i < |xs| ensures !less(x, xs[i]) {
          assert xs[i] in xs;
        }
      }
    }
  }

  lemma {:induction false} SortWeakly<T(!new)>(less: (T, T) -> bool, xs: seq<T>, s: multiset<T>)
    requires TotalOn(less, s) && forall x :: x in xs ==> x in s
    ensures WeaklySorted(less, SortBy(less, xs))
  {
    if xs != [] {
      var front := xs[..|xs| - 1];
      SortWeakly(less, front, s);
      SortMembers(less, front);
      forall y | y in SortBy(less, front) ensures y in s {
        assert y in multiset(SortBy(less, front));
        assert y in front;
      }
      assert xs[|xs| - 1] in xs;
      InsertWeakly(less, SortBy(less, front), xs[|xs| - 1], s);
    }
  }

  /** Nothing is less than the first of a sorted list, repeated or not. */
  lemma SortHeadLeast<T(!new)>(less: (T, T) -> bool, xs: seq<T>, s: multiset<T>)
    requires TotalOn(less, s) && xs != [] && forall x :: x in xs ==> x in s
    ensures |SortBy(less, xs)| == |xs| && forall x :: x in xs ==> !less(x, SortBy(less, xs)[0])
  {
    SortWeakly(less, xs, s);
    SortMembers(less, xs);
    forall x | x in xs ensures !less(x, SortBy(less, xs)[0]) {
      assert x in multiset(SortBy(less, xs));
      var k :| 0 <= k < |xs| && SortBy(less, xs)[k] == x;
      assert SortBy(less, xs)[0] in multiset(SortBy(less, xs));
      assert SortBy(less, xs)[0] in xs;
    }
  }

  lemma MembersAgree<T>(xs: seq<T>, ys: seq<T>)
    requires multiset(xs) == multiset(ys)
    ensures forall z :: z in xs <==> z in ys
  {
    forall z ensures z in xs <==> z in ys {
      assert z in xs <==> z in multiset(xs);
      assert z in ys <==> z in multiset(ys);
    }
  }

  /** Lists without repetition and with the same members are permutations of each other. */
  lemma SameMembersPermute<T>(xs: seq<T>, ys: seq<T>)
    requires Distinct(xs) && Distinct(ys) && forall z :: z in xs <==> z in ys
    ensures multiset(xs) == multiset(ys)
  {
    forall z ensures multiset(xs)[z] == multiset(ys)[z] {
      OnceInside(xs, z);
      OnceInside(ys, z);
      assert z in multiset(xs) <==> z in xs;
      assert z in multiset(ys) <==> z in ys;
    }
  }

  /** An arrangement that is already in order stays as it is. */
  lemma {:induction false} SortKeeps<T>(less: (T, T) -> bool, xs: seq<T>)
    requires WeaklySorted(less, xs)
    ensures SortBy(less, xs) == xs
  {
    if xs != [] {
      var front, last := xs[..|xs| - 1], xs[|xs| - 1];
      SortKeeps(less, front);
      assert front == [] || !less(last, front[|front| - 1]);
      assert xs == front + [last];
    }
  }

  /** The number of arrangements does not matter to distinctness. */
  lemma DistinctPermutes<T>(xs: seq<T>, ys: seq<T>)
    requires multiset(xs) == multiset(ys) && Distinct(xs)
    ensures Distinct(ys)
  {
    forall i, j | 0 <= i < j < |ys| ensures ys[i] != ys[j] {
      if ys[i] == ys[j] {
        TwiceInside(ys, i, j);
        OnceInside(xs, ys[i]);
      }
    }
  }

  lemma TwiceInside<T>(xs: seq<T>, i: nat, j: nat)
    requires i < j < |xs| && xs[i] == xs[j]
    ensures multiset(xs)[xs[i]] >= 2
  {
    assert xs == xs[..j] + [xs[j]] + xs[j + 1..];
    assert xs[..j][i] == xs[i];
    assert xs[i] in multiset(xs[..j]);
  }

  lemma {:induction false} OnceInside<T>(xs: seq<T>, x: T)
    requires Distinct(xs)
    ensures multiset(xs)[x] <= 1
  {
    if xs != [] {
      OnceInside(xs[..|xs| - 1], x);
      assert xs == xs[..|xs| - 1] + [xs[|xs| - 1]];
    }
  }
}
