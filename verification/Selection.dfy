/** Choosing among scored candidates: guardrails, margin bands and frozen tie-breaks. */
module Selection {
  import opened Ordering
  import opened Sorting
  import opened Scoring
  import opened Sequences
  import opened MetricRanges

  // ----- The two orders -----

  /** Higher ranking value first, then the smaller name. */
  predicate RanksBefore(a: Candidate, b: Candidate) {
    a.rankingValue > b.rankingValue || (a.rankingValue == b.rankingValue && LexLess(a.actionId, b.actionId))
  }

  /** Lower tail risk, then less uncertainty, then lower irreversible cost, then the smaller name. */
  predicate TieBefore(a: Candidate, b: Candidate) {
    if a.selectionPenalty != b.selectionPenalty then a.selectionPenalty < b.selectionPenalty
    else if a.uncertaintySpan != b.uncertaintySpan then a.uncertaintySpan < b.uncertaintySpan
    else if a.irreversibleCost != b.irreversibleCost then a.irreversibleCost < b.irreversibleCost
    else LexLess(a.actionId, b.actionId)
  }

  ghost predicate UniqueIds(cs: seq<Candidate>) {
    forall i, j :: 0 <= i < j < |cs| ==> cs[i].actionId != cs[j].actionId
  }

  ghost predicate NamesApart(s: multiset<Candidate>) {
    forall a, b :: a in s && b in s && a.actionId == b.actionId ==> a == b
  }

  lemma UniqueIdsAreDistinct(cs: seq<Candidate>)
    requires UniqueIds(cs)
    ensures Distinct(cs) && NamesApart(multiset(cs))
  {
    forall a, b | a in multiset(cs) && b in multiset(cs) && a.actionId == b.actionId ensures a == b {
      assert a in cs && b in cs;
      var i :| 0 <= i < |cs| && cs[i] == a;
      var j :| 0 <= j < |cs| && cs[j] == b;
    }
  }

  lemma RanksTotally(s: multiset<Candidate>)
    requires NamesApart(s)
    ensures TotalOn(RanksBefore, s)
  {
    forall a, b | a in s && b in s
      ensures a == b || RanksBefore(a, b) || RanksBefore(b, a)
      ensures !(RanksBefore(a, b) && RanksBefore(b, a))
    {
      LexTotal(a.actionId, b.actionId);
    }
    forall a, b, c | a in s && b in s && c in s && RanksBefore(a, b) && RanksBefore(b, c) ensures RanksBefore(a, c) {
      if a.rankingValue == b.rankingValue == c.rankingValue {
        LexTransitive(a.actionId, b.actionId, c.actionId);
      }
    }
  }

  lemma TiesTotally(s: multiset<Candidate>)
    requires NamesApart(s)
    ensures TotalOn(TieBefore, s)
  {
    forall a, b | a in s && b in s
      ensures a == b || TieBefore(a, b) || TieBefore(b, a)
      ensures !(TieBefore(a, b) && TieBefore(b, a))
    {
      LexTotal(a.actionId, b.actionId);
    }
    forall a, b, c | a in s && b in s && c in s && TieBefore(a, b) && TieBefore(b, c) ensures TieBefore(a, c) {
      TieTransitive(a, b, c);
    }
  }

  lemma TieTransitive(a: Candidate, b: Candidate, c: Candidate)
    requires TieBefore(a, b) && TieBefore(b, c)
    ensures TieBefore(a, c)
  {
    if LexLess(a.actionId, b.actionId) && LexLess(b.actionId, c.actionId) {
      LexTransitive(a.actionId, b.actionId, c.actionId);
    }
  }

  // ----- Margin bands -----

  /** How many candidates from the front stay within `width` of `anchor`. */
  function Band(pending: seq<Candidate>, anchor: real, width: real): (k: nat)
    ensures k <= |pending|
    ensures forall i :: 0 <= i < k ==> anchor - pending[i].rankingValue <= width
    ensures k < |pending| ==> anchor - pending[k].rankingValue > width
  {
    if pending == [] || anchor - pending[0].rankingValue > width then 0
    else 1 + Band(pending[1..], anchor, width)
  }

  /** Cut a ranked list into bands below their leaders; each band is put in tie order. */
  function Groups(pending: seq<Candidate>, width: real): (gs: seq<seq<Candidate>>)
    requires width >= 0.0
    decreases |pending|
  {
    if pending == [] then []
    else
      var k := Band(pending, pending[0].rankingValue, width);
      [SortBy(TieBefore, pending[..k])] + Groups(pending[k..], width)
  }

  function Bands(cs: seq<Candidate>, width: real): seq<seq<Candidate>>
    requires width >= 0.0
  {
    Groups(SortBy(RanksBefore, cs), width)
  }

  /** Pop candidates for as long as they stay within `width` of `anchor`. */
  method PopBand(ranked: seq<Candidate>, anchor: real, width: real)
    returns (group: seq<Candidate>, pending: seq<Candidate>)
    ensures var k := Band(ranked, anchor, width); group == ranked[..k] && pending == ranked[k..]
  {
    group, pending := [], ranked;
    while pending != [] && anchor - pending[0].rankingValue <= width
      invariant |group| <= |ranked| && group == ranked[..|group|] && pending == ranked[|group|..]
      invariant Band(ranked, anchor, width) == |group| + Band(pending, anchor, width)
      decreases |pending|
    {
      group := group + [pending[0]];
      pending := pending[1..];
    }
  }

  method ScoreGroups(cs: seq<Candidate>, margin: real) returns (groups: seq<seq<Candidate>>)
    requires margin >= 0.0
    ensures groups == Bands(cs, margin + TOLERANCE)
  {
    var pending := SortBy(RanksBefore, cs);
    var width := margin + TOLERANCE;
    groups := [];
    while pending != []
      invariant groups + Groups(pending, width) == Bands(cs, width)
      decreases |pending|
    {
      GroupsStep(groups, pending, width);
      var group;
      group, pending := PopBand(pending, pending[0].rankingValue, width);
      groups := groups + [SortBy(TieBefore, group)];
    }
  }

  lemma GroupsStep(done: seq<seq<Candidate>>, pending: seq<Candidate>, width: real)
    requires width >= 0.0 && pending != []
    ensures var k := Band(pending, pending[0].rankingValue, width);
            && k > 0
            && done + Groups(pending, width)
               == done + [SortBy(TieBefore, pending[..k])] + Groups(pending[k..], width)
  {
  }

  /** `leader` heads group `i`: the group is exactly what is left within `width` of it. */
  ghost predicate Leads(cs: seq<Candidate>, gs: seq<seq<Candidate>>, i: nat, leader: Candidate, width: real)
    requires i < |gs|
  {
    && leader in gs[i]
    && (forall c :: c in gs[i] ==> c in cs && leader.rankingValue - width <= c.rankingValue <= leader.rankingValue)
    && (forall j, c :: i < j < |gs| && c in gs[j] ==> leader.rankingValue - c.rankingValue > width)
  }

  ghost predicate Led(cs: seq<Candidate>, gs: seq<seq<Candidate>>, i: nat, width: real)
    requires i < |gs|
  {
    exists leader :: Leads(cs, gs, i, leader, width)
  }

  ghost predicate AreBands(cs: seq<Candidate>, gs: seq<seq<Candidate>>, width: real) {
    && multiset(Concat(gs)) == multiset(cs)
    && (forall i :: 0 <= i < |gs| ==> gs[i] != [] && StrictlySorted(TieBefore, gs[i]))
    && (forall i :: 0 <= i < |gs| ==> Led(cs, gs, i, width))
  }

  /** Ranked best first. */
  ghost predicate Ranked(cs: seq<Candidate>) {
    forall i, j :: 0 <= i < j < |cs| ==> cs[i].rankingValue >= cs[j].rankingValue
  }

  /** `first` arranges the front `k` of `pending`, and `rest` the remainder. */
  ghost predicate Cut(pending: seq<Candidate>, k: nat, first: seq<Candidate>, rest: seq<seq<Candidate>>) {
    k <= |pending| && multiset(first) == multiset(pending[..k]) && multiset(Concat(rest)) == multiset(pending[k..])
  }

  lemma CutMembers(pending: seq<Candidate>, k: nat, first: seq<Candidate>, rest: seq<seq<Candidate>>)
    requires Cut(pending, k, first, rest)
    ensures multiset(Concat([first] + rest)) == multiset(pending)
  {
    ConcatCons(first, rest);
    assert pending == pending[..k] + pending[k..];
  }

  lemma FirstLeads(pending: seq<Candidate>, k: nat, first: seq<Candidate>, rest: seq<seq<Candidate>>, width: real)
    requires width >= 0.0 && pending != [] && Ranked(pending) && Cut(pending, k, first, rest)
    requires k == Band(pending, pending[0].rankingValue, width)
    ensures Leads(pending, [first] + rest, 0, pending[0], width)
  {
    var leader, gs := pending[0], [first] + rest;
    MembersAgree(first, pending[..k]);
    MembersAgree(Concat(rest), pending[k..]);
    assert pending[..k][0] == leader;
    forall j, c: Candidate | 0 < j < |gs| && c in gs[j] ensures leader.rankingValue - c.rankingValue > width {
      assert c in rest[j - 1];
      ConcatMember(rest, c);
      var m :| 0 <= m < |pending[k..]| && pending[k..][m] == c;
    }
  }

  lemma LeadsLater(cs: seq<Candidate>, k: nat, first: seq<Candidate>, rest: seq<seq<Candidate>>, i: nat, width: real)
    requires k <= |cs| && i < |rest| && Led(cs[k..], rest, i, width)
    ensures Led(cs, [first] + rest, i + 1, width)
  {
    var leader :| Leads(cs[k..], rest, i, leader, width);
    var gs := [first] + rest;
    forall j, c: Candidate | i + 1 < j < |gs| && c in gs[j] ensures leader.rankingValue - c.rankingValue > width {
      assert c in rest[j - 1];
    }
    assert Leads(cs, gs, i + 1, leader, width);
  }

  lemma PrependBand(pending: seq<Candidate>, k: nat, first: seq<Candidate>, rest: seq<seq<Candidate>>, width: real)
    requires width >= 0.0 && pending != [] && Ranked(pending) && Cut(pending, k, first, rest)
    requires k == Band(pending, pending[0].rankingValue, width)
    requires AreBands(pending[k..], rest, width) && StrictlySorted(TieBefore, first)
    ensures AreBands(pending, [first] + rest, width)
  {
    var gs := [first] + rest;
    CutMembers(pending, k, first, rest);
    FirstLeads(pending, k, first, rest, width);
    hide Ranked, Band;
    forall i | 0 <= i < |gs| ensures Led(pending, gs, i, width) {
      if i > 0 {
        LeadsLater(pending, k, first, rest, i - 1, width);
      }
    }
  }

  lemma TieSort(group: seq<Candidate>)
    requires UniqueIds(group)
    ensures multiset(SortBy(TieBefore, group)) == multiset(group) && StrictlySorted(TieBefore, SortBy(TieBefore, group))
  {
    SortMembers(TieBefore, group);
    UniqueIdsAreDistinct(group);
    TiesTotally(multiset(group));
    SortSorts(TieBefore, group, multiset(group));
  }

  lemma {:induction false} GroupsAreBands(pending: seq<Candidate>, width: real)
    requires width >= 0.0 && Ranked(pending) && UniqueIds(pending)
    ensures AreBands(pending, Groups(pending, width), width)
    decreases |pending|
  {
    if pending != [] {
      var k := Band(pending, pending[0].rankingValue, width);
      GroupsAreBands(pending[k..], width);
      TieSort(pending[..k]);
      PrependBand(pending, k, SortBy(TieBefore, pending[..k]), Groups(pending[k..], width), width);
    }
  }

  lemma RankedBySort(cs: seq<Candidate>)
    requires UniqueIds(cs)
    ensures Ranked(SortBy(RanksBefore, cs)) && UniqueIds(SortBy(RanksBefore, cs))
    ensures multiset(SortBy(RanksBefore, cs)) == multiset(cs)
  {
    var sorted := SortBy(RanksBefore, cs);
    UniqueIdsAreDistinct(cs);
    RanksTotally(multiset(cs));
    SortSorts(RanksBefore, cs, multiset(cs));
    SortMembers(RanksBefore, cs);
    UniqueIdsPermute(cs, sorted);
  }

  lemma UniqueIdsPermute(cs: seq<Candidate>, ds: seq<Candidate>)
    requires multiset(cs) == multiset(ds) && UniqueIds(cs)
    ensures UniqueIds(ds)
  {
    UniqueIdsAreDistinct(cs);
    DistinctPermutes(cs, ds);
    forall i, j | 0 <= i < j < |ds| ensures ds[i].actionId != ds[j].actionId {
      assert ds[i] in multiset(ds) && ds[j] in multiset(ds);
      assert ds[i] != ds[j];
    }
  }

  /** The groups are exactly the bands: each is all that is left within the margin of its leader. */
  lemma ScoreGroupsAreBands(cs: seq<Candidate>, width: real)
    requires width >= 0.0 && UniqueIds(cs)
    ensures AreBands(cs, Bands(cs, width), width)
  {
    var sorted := SortBy(RanksBefore, cs);
    RankedBySort(cs);
    GroupsAreBands(sorted, width);
    BandsPermute(sorted, cs, Groups(sorted, width), width);
  }

  lemma BandsPermute(cs: seq<Candidate>, ds: seq<Candidate>, gs: seq<seq<Candidate>>, width: real)
    requires multiset(cs) == multiset(ds) && AreBands(cs, gs, width)
    ensures AreBands(ds, gs, width)
  {
    MembersAgree(cs, ds);
    forall i | 0 <= i < |gs| ensures Led(ds, gs, i, width) {
      assert Led(cs, gs, i, width);
      var leader :| Leads(cs, gs, i, leader, width);
      assert Leads(ds, gs, i, leader, width);
    }
  }
}
