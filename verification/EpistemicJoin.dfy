/** Joint hidden states: the natural join of the scenarios' assignment domains. */
module EpistemicJoin {
  import opened Sequences

  datatype Key = Key(actorId: string, field: string)

  datatype Assignment = Assignment(key: Key, value: int)

  type State = map<Key, int>

  type Domains = map<seq<Key>, set<seq<Assignment>>>

  function KeysOf(t: seq<Assignment>): (ks: seq<Key>)
    ensures |ks| == |t|
  {
    seq(|t|, i requires 0 <= i < |t| => t[i].key)
  }

  /** `m` gives every assigned key its assigned value. */
  predicate Agrees(m: State, t: seq<Assignment>) {
    forall a :: a in t ==> a.key in m && m[a.key] == a.value
  }

  ghost predicate Offered(scenarios: seq<seq<Assignment>>, k: Key) {
    exists t :: t in scenarios && k in KeysOf(t)
  }

  ghost predicate Satisfied(scenarios: seq<seq<Assignment>>, keys: seq<Key>, m: State) {
    exists t :: t in scenarios && KeysOf(t) == keys && Agrees(m, t)
  }

  /**
   * The natural join of what the scenarios offer: `m` has exactly the scenarios' keys, and on the keys
   * of every scenario it agrees with one of the scenarios over those same keys.
   */
  ghost predicate NaturalJoin(scenarios: seq<seq<Assignment>>, m: State) {
    && (forall k :: k in m <==> Offered(scenarios, k))
    && (forall t :: t in scenarios ==> Satisfied(scenarios, KeysOf(t), m))
  }

  ghost predicate InDomains(domains: Domains, k: Key) {
    exists d :: d in domains && k in d
  }

  ghost predicate Met(options: set<seq<Assignment>>, m: State) {
    exists t :: t in options && Agrees(m, t)
  }

  /** The same, for scenarios already collected into domains. */
  ghost predicate Joins(domains: Domains, m: State) {
    && (forall k :: k in m <==> InDomains(domains, k))
    && (forall d :: d in domains ==> Met(domains[d], m))
  }

  ghost predicate DomainsOf(scenarios: seq<seq<Assignment>>, domains: Domains) {
    && (forall d :: d in domains ==> domains[d] != {} && forall t :: t in domains[d] ==> KeysOf(t) == d)
    && (forall t :: t in scenarios <==> KeysOf(t) in domains && t in domains[KeysOf(t)])
  }

  lemma OfferedInDomains(scenarios: seq<seq<Assignment>>, domains: Domains, k: Key)
    requires DomainsOf(scenarios, domains)
    ensures InDomains(domains, k) <==> Offered(scenarios, k)
  {
    if d :| d in domains && k in d {
      var t :| t in domains[d];
      assert t in scenarios && k in KeysOf(t);
    }
  }

  lemma SatisfiedIsMet(scenarios: seq<seq<Assignment>>, domains: Domains, d: seq<Key>, m: State)
    requires DomainsOf(scenarios, domains) && d in domains
    ensures Met(domains[d], m) <==> Satisfied(scenarios, d, m)
  {
    if t :| t in domains[d] && Agrees(m, t) {
      assert t in scenarios && KeysOf(t) == d;
    }
  }

  lemma EveryDomainMet(scenarios: seq<seq<Assignment>>, domains: Domains, m: State)
    requires DomainsOf(scenarios, domains)
    ensures (forall d :: d in domains ==> Met(domains[d], m))
            <==> (forall t :: t in scenarios ==> Satisfied(scenarios, KeysOf(t), m))
  {
    forall t | t in scenarios
      ensures KeysOf(t) in domains && (Met(domains[KeysOf(t)], m) <==> Satisfied(scenarios, KeysOf(t), m))
    {
      SatisfiedIsMet(scenarios, domains, KeysOf(t), m);
    }
    forall d | d in domains ensures exists t :: t in scenarios && KeysOf(t) == d {
      var t :| t in domains[d];
      assert t in scenarios;
    }
  }

  lemma DomainsJoin(scenarios: seq<seq<Assignment>>, domains: Domains, m: State)
    requires DomainsOf(scenarios, domains)
    ensures Joins(domains, m) <==> NaturalJoin(scenarios, m)
  {
    hide DomainsOf;
    forall k ensures InDomains(domains, k) <==> Offered(scenarios, k) {
      OfferedInDomains(scenarios, domains, k);
    }
    EveryDomainMet(scenarios, domains, m);
  }

  // ----- Collecting the domains -----

  method CollectDomains(features: seq<seq<seq<Assignment>>>) returns (domains: Domains)
    ensures DomainsOf(Concat(features), domains)
  {
    domains := map[];
    for i := 0 to |features|
      invariant DomainsOf(Concat(features[..i]), domains)
    {
      ghost var before := Concat(features[..i]);
      for j := 0 to |features[i]|
        invariant DomainsOf(before + features[i][..j], domains)
      {
        var t := features[i][j];
        var d := KeysOf(t);
        assert features[i][..j + 1] == features[i][..j] + [t];
        domains := domains[d := (if d in domains then domains[d] else {}) + {t}];
      }
      assert features[i][..|features[i]|] == features[i];
      assert features[..i + 1][..i] == features[..i];
    }
    assert features[..|features|] == features;
  }

  // ----- Combining one member of each domain -----

  function Prepend<T(!new)>(x: T, rests: seq<seq<T>>): (r: seq<seq<T>>)
    ensures forall c :: c in r <==> c != [] && c[0] == x && c[1..] in rests
  {
    if rests == [] then []
    else
      assert forall c: seq<T> :: c != [] && c[0] == x && c[1..] == rests[0] ==> c == [x] + rests[0];
      [[x] + rests[0]] + Prepend(x, rests[1..])
  }

  function PrependEach<T(!new)>(xs: seq<T>, rests: seq<seq<T>>): (r: seq<seq<T>>)
    ensures forall c :: c in r <==> c != [] && c[0] in xs && c[1..] in rests
  {
    if xs == [] then [] else Prepend(xs[0], rests) + PrependEach(xs[1..], rests)
  }

  /** Every way to pick one element of each list. */
  function Product<T(!new)>(xss: seq<seq<T>>): seq<seq<T>> {
    if xss == [] then [[]] else PrependEach(xss[0], Product(xss[1..]))
  }

  lemma {:induction false} ProductPicks<T(!new)>(xss: seq<seq<T>>, c: seq<T>)
    ensures c in Product(xss) <==> |c| == |xss| && forall i :: 0 <= i < |xss| ==> c[i] in xss[i]
  {
    if xss != [] && c != [] {
      ProductPicks(xss[1..], c[1..]);
      assert forall i :: 0 < i < |c| ==> c[i] == c[1..][i - 1];
      assert forall i :: 0 < i < |xss| ==> xss[i] == xss[1..][i - 1];
    }
  }

  /** `m` is what the assignments of the combination amount to. */
  ghost predicate Merges(combination: seq<seq<Assignment>>, m: State) {
    && (forall k :: k in m <==> exists i :: 0 <= i < |combination| && k in KeysOf(combination[i]))
    && (forall i :: 0 <= i < |combination| ==> Agrees(m, combination[i]))
  }

  /** A key that `t` assigns has an assignment in `t`. */
  lemma KeyAssigned(t: seq<Assignment>, k: Key) returns (a: Assignment)
    requires k in KeysOf(t)
    ensures a in t && a.key == k
  {
    var j :| 0 <= j < |t| && KeysOf(t)[j] == k;
    a := t[j];
  }

  /** What one combination says about a key is what every state it amounts to says. */
  lemma MergedAlike(combination: seq<seq<Assignment>>, m: State, n: State, k: Key)
    requires Merges(combination, m) && Merges(combination, n) && k in m
    ensures k in n && m[k] == n[k]
  {
    var i :| 0 <= i < |combination| && k in KeysOf(combination[i]);
    var a := KeyAssigned(combination[i], k);
    assert Agrees(m, combination[i]) && Agrees(n, combination[i]);
  }

  lemma MergesAtMostOnce(combination: seq<seq<Assignment>>, m: State, n: State)
    requires Merges(combination, m) && Merges(combination, n)
    ensures m == n
  {
    hide Merges;
    forall k | k in m ensures k in n && m[k] == n[k] {
      MergedAlike(combination, m, n, k);
    }
    forall k | k in n ensures k in m {
      MergedAlike(combination, n, m, k);
    }
  }

  /** `m` records exactly the assignments `seen`. */
  ghost predicate Records(seen: seq<Assignment>, m: State) {
    Agrees(m, seen) && forall k :: k in m ==> exists a :: a in seen && a.key == k
  }

  lemma RecordsMore(seen: seq<Assignment>, m: State, a: Assignment)
    requires Records(seen, m) && (a.key in m ==> m[a.key] == a.value)
    ensures Records(seen + [a], m[a.key := a.value])
  {
    var n := m[a.key := a.value];
    forall k | k in n ensures exists b :: b in seen + [a] && b.key == k {
      if k != a.key {
        var b :| b in seen && b.key == k;
        assert b in seen + [a];
      } else {
        assert a in seen + [a];
      }
    }
  }

  /** Two different values for one key: no state agrees with both. */
  lemma Conflict(combination: seq<seq<Assignment>>, seen: seq<Assignment>, m: State, a: Assignment, n: State)
    requires Records(seen, m) && a.key in m && m[a.key] != a.value
    requires forall b :: b in seen + [a] ==> b in Concat(combination)
    ensures !Merges(combination, n)
  {
    var b :| b in seen && b.key == a.key;
    assert a in seen + [a] && b in seen + [a];
    ConcatMember(combination, a);
    ConcatMember(combination, b);
  }

  lemma RecordsAll(combination: seq<seq<Assignment>>, m: State)
    requires Records(Concat(combination), m)
    ensures Merges(combination, m)
  {
    forall i, a | 0 <= i < |combination| && a in combination[i] ensures a.key in m && m[a.key] == a.value {
      ConcatMember(combination, a);
    }
    forall k ensures k in m <==> exists i :: 0 <= i < |combination| && k in KeysOf(combination[i]) {
      if k in m {
        var a :| a in Concat(combination) && a.key == k;
        ConcatMember(combination, a);
        var i :| 0 <= i < |combination| && a in combination[i];
        var j :| 0 <= j < |combination[i]| && combination[i][j] == a;
        assert KeysOf(combination[i])[j] == k;
      }
      if i :| 0 <= i < |combination| && k in KeysOf(combination[i]) {
        var a := KeyAssigned(combination[i], k);
      }
    }
  }

  /** Merge one combination, giving up at the first conflict. */
  method Merge(combination: seq<seq<Assignment>>) returns (merged: State, compatible: bool)
    ensures compatible ==> Merges(combination, merged)
    ensures !compatible ==> forall m :: !Merges(combination, m)
  {
    merged, compatible := map[], true;
    var i := 0;
    while i < |combination| && compatible
      invariant i <= |combination|
      invariant compatible ==> Records(Concat(combination[..i]), merged)
      invariant !compatible ==> forall m :: !Merges(combination, m)
      decreases |combination| - i, compatible
    {
      merged, compatible := MergeOne(combination, i, merged);
      i := i + 1;
    }
    assert combination[..|combination|] == combination;
    if compatible {
      RecordsAll(combination, merged);
    }
  }

  method MergeOne(combination: seq<seq<Assignment>>, i: nat, before: State) returns (merged: State, compatible: bool)
    requires i < |combination| && Records(Concat(combination[..i]), before)
    ensures compatible ==> Records(Concat(combination[..i + 1]), merged)
    ensures !compatible ==> forall m :: !Merges(combination, m)
  {
    merged, compatible := before, true;
    ghost var base := Concat(combination[..i]);
    var j := 0;
    while j < |combination[i]|
      invariant j <= |combination[i]|
      invariant Records(base + combination[i][..j], merged)
    {
      var a := combination[i][j];
      assert base + combination[i][..j + 1] == base + combination[i][..j] + [a];
      if a.key in merged && merged[a.key] != a.value {
        forall b | b in base + combination[i][..j] + [a] ensures b in Concat(combination) {
          SeenEarlier(combination, i, j, b);
        }
        forall m ensures !Merges(combination, m) {
          Conflict(combination, base + combination[i][..j], merged, a, m);
        }
        compatible := false;
        return;
      }
      RecordsMore(base + combination[i][..j], merged, a);
      merged := merged[a.key := a.value];
      j := j + 1;
    }
    assert combination[i][..j] == combination[i];
    assert combination[..i + 1][..i] == combination[..i];
  }

  lemma SeenEarlier(combination: seq<seq<Assignment>>, i: nat, j: nat, b: Assignment)
    requires i < |combination| && j < |combination[i]|
    requires b in Concat(combination[..i]) + combination[i][..j] + [combination[i][j]]
    ensures b in Concat(combination)
  {
    ConcatMember(combination, b);
    ConcatMember(combination[..i], b);
    if b in Concat(combination[..i]) {
      var k :| 0 <= k < i && b in combination[..i][k];
      assert b in combination[k];
    } else {
      assert b in combination[i];
    }
  }

  // ----- The join -----

  method Enumerate<T(==)>(s: set<T>) returns (xs: seq<T>)
    ensures forall x :: x in xs <==> x in s
  {
    xs := [];
    var rest := s;
    while rest != {}
      invariant rest <= s && forall x :: x in xs <==> x in s - rest
      decreases |rest|
    {
      var x :| x in rest;
      xs := xs + [x];
      rest := rest - {x};
    }
  }

  /** The listed domains, in the listed order. */
  ghost predicate Listed(domains: Domains, keys: seq<seq<Key>>, lists: seq<seq<seq<Assignment>>>) {
    && (forall d :: d in keys <==> d in domains)
    && |lists| == |keys|
    && forall i :: 0 <= i < |keys| ==> keys[i] in domains && forall t :: t in lists[i] <==> t in domains[keys[i]]
  }

  lemma CombinationJoins(domains: Domains, keys: seq<seq<Key>>, lists: seq<seq<seq<Assignment>>>,
                         c: seq<seq<Assignment>>, m: State)
    requires Listed(domains, keys, lists) && forall d, t :: d in domains && t in domains[d] ==> KeysOf(t) == d
    requires c in Product(lists) && Merges(c, m)
    ensures Joins(domains, m)
  {
    ProductPicks(lists, c);
    forall d | d in domains ensures Met(domains[d], m) {
      var i :| 0 <= i < |keys| && keys[i] == d;
      assert c[i] in domains[d];
    }
    forall k ensures k in m <==> InDomains(domains, k) {
      if d :| d in domains && k in d {
        var i :| 0 <= i < |keys| && keys[i] == d;
        assert k in KeysOf(c[i]);
      }
      if k in m {
        var i :| 0 <= i < |c| && k in KeysOf(c[i]);
        assert keys[i] in domains && k in keys[i];
      }
    }
  }

  lemma JoinIsCombination(domains: Domains, keys: seq<seq<Key>>, lists: seq<seq<seq<Assignment>>>, m: State)
    returns (c: seq<seq<Assignment>>)
    requires Listed(domains, keys, lists) && forall d, t :: d in domains && t in domains[d] ==> KeysOf(t) == d
    requires Joins(domains, m)
    ensures c in Product(lists) && Merges(c, m)
  {
    c := [];
    while |c| < |keys|
      invariant |c| <= |keys|
      invariant forall i :: 0 <= i < |c| ==> c[i] in domains[keys[i]] && Agrees(m, c[i])
    {
      assert keys[|c|] in domains && Met(domains[keys[|c|]], m);
      var t :| t in domains[keys[|c|]] && Agrees(m, t);
      c := c + [t];
    }
    ProductPicks(lists, c);
    forall k ensures k in m <==> exists i :: 0 <= i < |c| && k in KeysOf(c[i]) {
      if k in m {
        assert InDomains(domains, k);
        var d :| d in domains && k in d;
        var i :| 0 <= i < |keys| && keys[i] == d;
        assert k in KeysOf(c[i]);
      }
      if i :| 0 <= i < |c| && k in KeysOf(c[i]) {
        assert keys[i] in domains && k in keys[i];
        assert InDomains(domains, k);
      }
    }
  }

  /** Exactly the natural join of all the scenarios; nothing at all when there is none. */
  method JointAssignments(features: seq<seq<seq<Assignment>>>) returns (joint: set<State>)
    ensures Concat(features) == [] ==> joint == {}
    ensures Concat(features) != [] ==> forall m :: m in joint <==> NaturalJoin(Concat(features), m)
  {
    var domains := CollectDomains(features);
    assert Concat(features) != [] ==> Concat(features)[0] in Concat(features);
    if domains == map[] {
      joint := {};
      return;
    }
    var keys := Enumerate(domains.Keys);
    var lists: seq<seq<seq<Assignment>>> := [];
    for i := 0 to |keys|
      invariant |lists| == i
      invariant forall k, t :: 0 <= k < i ==> (t in lists[k] <==> t in domains[keys[k]])
    {
      assert keys[i] in keys;
      var list := Enumerate(domains[keys[i]]);
      lists := lists + [list];
    }
    joint := JoinCombinations(domains, keys, lists);
    forall m ensures Joins(domains, m) <==> NaturalJoin(Concat(features), m) {
      DomainsJoin(Concat(features), domains, m);
    }
    assert Concat(features) != [] by {
      var d :| d in domains;
      var t :| t in domains[d];
      assert t in Concat(features);
    }
  }

  ghost predicate MergedBy(combinations: seq<seq<seq<Assignment>>>, m: State) {
    exists c :: c in combinations && Merges(c, m)
  }

  method JoinCombinations(domains: Domains, keys: seq<seq<Key>>, lists: seq<seq<seq<Assignment>>>)
    returns (joint: set<State>)
    requires Listed(domains, keys, lists) && forall d, t :: d in domains && t in domains[d] ==> KeysOf(t) == d
    ensures forall m :: m in joint <==> Joins(domains, m)
  {
    joint := {};
    var combinations := Product(lists);
    for i := 0 to |combinations|
      invariant forall m :: m in joint <==> MergedBy(combinations[..i], m)
    {
      var merged, compatible := Merge(combinations[i]);
      forall m
        ensures MergedBy(combinations[..i + 1], m) <==> MergedBy(combinations[..i], m) || (compatible && m == merged)
      {
        MergedByOneMore(combinations, i, m);
        if compatible && Merges(combinations[i], m) {
          MergesAtMostOnce(combinations[i], m, merged);
        }
      }
      if compatible {
        joint := joint + {merged};
      }
    }
    assert combinations[..|combinations|] == combinations;
    forall m ensures MergedBy(combinations, m) <==> Joins(domains, m) {
      CombinationsJoin(domains, keys, lists, m);
    }
  }

  lemma MergedByOneMore(combinations: seq<seq<seq<Assignment>>>, i: nat, m: State)
    requires i < |combinations|
    ensures MergedBy(combinations[..i + 1], m) <==> MergedBy(combinations[..i], m) || Merges(combinations[i], m)
  {
    assert combinations[..i + 1] == combinations[..i] + [combinations[i]];
    assert combinations[i] in combinations[..i + 1];
    if MergedBy(combinations[..i], m) {
      var c :| c in combinations[..i] && Merges(c, m);
      assert c in combinations[..i + 1];
    }
  }

  lemma CombinationsJoin(domains: Domains, keys: seq<seq<Key>>, lists: seq<seq<seq<Assignment>>>, m: State)
    requires Listed(domains, keys, lists) && forall d, t :: d in domains && t in domains[d] ==> KeysOf(t) == d
    ensures MergedBy(Product(lists), m) <==> Joins(domains, m)
  {
    if MergedBy(Product(lists), m) {
      var c :| c in Product(lists) && Merges(c, m);
      CombinationJoins(domains, keys, lists, c, m);
    }
    if Joins(domains, m) {
      var c := JoinIsCombination(domains, keys, lists, m);
    }
  }
}
