/** The whole selection, and what it guarantees about the ranking and the chosen action. */
module SelectionLaws {
  import opened Common
  import opened Ordering
  import opened Sorting
  import opened Scoring
  import opened Sequences
  import opened Dominance
  import opened MetricRanges
  import opened Selection

  function Keep(excluded: bool, cs: seq<Candidate>): seq<Candidate> {
    if cs == [] then []
    else
      var last := cs[|cs| - 1];
      Keep(excluded, cs[..|cs| - 1]) + (if last.guardrailExcluded == excluded then [last] else [])
  }

  lemma {:induction false} KeepMembers(excluded: bool, cs: seq<Candidate>)
    ensures forall c :: c in Keep(excluded, cs) <==> c in cs && c.guardrailExcluded == excluded
  {
    if cs != [] {
      KeepMembers(excluded, cs[..|cs| - 1]);
      assert forall c :: c in cs <==> c in cs[..|cs| - 1] || c == cs[|cs| - 1];
    }
  }

  function Names(cs: seq<Candidate>): (ids: seq<string>)
    ensures |ids| == |cs| && forall i :: 0 <= i < |cs| ==> ids[i] == cs[i].actionId
  {
    seq(|cs|, i requires 0 <= i < |cs| => cs[i].actionId)
  }

  /** The groups of more than one. */
  function Crowded(gs: seq<seq<Candidate>>): (ks: seq<seq<Candidate>>)
    ensures forall i :: 0 <= i < |ks| ==> |ks[i]| > 1
  {
    if gs == [] then []
    else
      var last := gs[|gs| - 1];
      Crowded(gs[..|gs| - 1]) + (if |last| > 1 then [last] else [])
  }

  lemma {:induction false} CrowdedMembers(gs: seq<seq<Candidate>>)
    ensures forall g :: g in Crowded(gs) <==> g in gs && |g| > 1
  {
    if gs != [] {
      CrowdedMembers(gs[..|gs| - 1]);
      assert forall g :: g in gs <==> g in gs[..|gs| - 1] || g == gs[|gs| - 1];
    }
  }

  datatype TieBreak = TieBreak(actionIds: seq<string>, winner: string)

  datatype Decision = Decision(
    ordered: seq<Candidate>, ranking: seq<string>, chosen: string,
    nearTies: seq<seq<string>>, tieBreaks: seq<TieBreak>)

  function NearTies(gs: seq<seq<Candidate>>): seq<seq<string>> {
    var ks := Crowded(gs);
    seq(|ks|, i requires 0 <= i < |ks| => Names(ks[i]))
  }

  function TieBreaks(gs: seq<seq<Candidate>>): seq<TieBreak> {
    var ks := Crowded(gs);
    seq(|ks|, i requires 0 <= i < |ks| => TieBreak(Names(ks[i]), ks[i][0].actionId))
  }

  /** Eligible bands first, then the bands of what a guardrail excludes. */
  function AllGroups(marked: seq<Candidate>, width: real): seq<seq<Candidate>>
    requires width >= 0.0
  {
    Bands(Keep(false, marked), width) + Bands(Keep(true, marked), width)
  }

  function Decided(cs: seq<Candidate>, width: real): Decision
    requires width >= 0.0
  {
    var groups := AllGroups(Marked(cs), width);
    var ordered := Concat(groups);
    Decision(ordered, Names(ordered), if ordered == [] then "" else ordered[0].actionId,
             NearTies(groups), TieBreaks(groups))
  }

  function NameSet(cs: seq<Candidate>): (ids: set<string>)
    ensures forall id :: id in ids <==> id in Names(cs)
  {
    if cs == [] then {}
    else
      var n := |cs| - 1;
      assert Names(cs) == Names(cs[..n]) + [cs[n].actionId];
      NameSet(cs[..n]) + {cs[n].actionId}
  }

  lemma UniqueIdsStep(cs: seq<Candidate>)
    requires cs != []
    ensures var n := |cs| - 1; UniqueIds(cs) <==> UniqueIds(cs[..n]) && cs[n].actionId !in Names(cs[..n])
  {
    var n := |cs| - 1;
    assert forall i :: 0 <= i < n ==> Names(cs[..n])[i] == cs[i].actionId;
  }

  /** Counting the distinct names tells whether they are all different. */
  lemma {:induction false} NameCount(cs: seq<Candidate>)
    ensures |NameSet(cs)| <= |cs| && (|NameSet(cs)| == |cs| <==> UniqueIds(cs))
  {
    if cs != [] {
      NameCount(cs[..|cs| - 1]);
      UniqueIdsStep(cs);
    }
  }

  lemma OrderedIsNonempty(cs: seq<Candidate>, width: real)
    requires width >= 0.0 && cs != [] && UniqueIds(cs)
    ensures Concat(AllGroups(Marked(cs), width)) != []
  {
    MarkedIsUnique(cs);
    OrderedPermutes(Marked(cs), width);
    MembersAgree(Concat(AllGroups(Marked(cs), width)), Marked(cs));
    assert Marked(cs)[0] in Marked(cs);
  }

  /** The decision, from its parts. */
  lemma DecidedByParts(cs: seq<Candidate>, width: real, marked: seq<Candidate>, groups: seq<seq<Candidate>>)
    requires width >= 0.0 && marked == Marked(cs) && cs != [] && UniqueIds(cs)
    requires groups == Bands(Keep(false, marked), width) + Bands(Keep(true, marked), width)
    ensures var ordered := Concat(groups);
            && ordered != []
            && Decided(cs, width)
               == Decision(ordered, Names(ordered), ordered[0].actionId, NearTies(groups), TieBreaks(groups))
  {
    OrderedIsNonempty(cs, width);
  }

  method Select(cs: seq<Candidate>, margin: real) returns (r: Result<Decision, string>)
    requires margin >= 0.0
    ensures r.Err? <==> cs == [] || !UniqueIds(cs)
    ensures r.Ok? ==> r.value == Decided(cs, margin + TOLERANCE)
  {
    assert margin + TOLERANCE >= 0.0;
    hide *;
    if cs == [] {
      return Err("selection requires at least one candidate");
    }
    NameCount(cs);
    if |NameSet(cs)| != |cs| {
      return Err("selection requires unique action IDs");
    }
    var marked := WithDominance(cs);
    var eligible := ScoreGroups(Keep(false, marked), margin);
    var excluded := ScoreGroups(Keep(true, marked), margin);
    var groups := eligible + excluded;
    var ordered := Concat(groups);
    DecidedByParts(cs, margin + TOLERANCE, marked, groups);
    r := Ok(Decision(ordered, Names(ordered), ordered[0].actionId, NearTies(groups), TieBreaks(groups)));
  }

  // ----- A permutation, eligible first -----

  lemma MarkedIsUnique(cs: seq<Candidate>)
    requires UniqueIds(cs)
    ensures UniqueIds(Marked(cs)) && Names(Marked(cs)) == Names(cs)
  {
  }

  lemma {:induction false} KeepUnique(excluded: bool, cs: seq<Candidate>)
    requires UniqueIds(cs)
    ensures UniqueIds(Keep(excluded, cs))
  {
    if cs != [] {
      var n := |cs| - 1;
      KeepUnique(excluded, cs[..n]);
      KeepMembers(excluded, cs[..n]);
      forall c | c in cs[..n] ensures c.actionId != cs[n].actionId {
        var i :| 0 <= i < n && cs[..n][i] == c;
        assert cs[i] == c;
      }
    }
  }

  lemma KeepLast(excluded: bool, front: seq<Candidate>, last: Candidate)
    ensures Keep(excluded, front + [last])
            == if last.guardrailExcluded == excluded then Keep(excluded, front) + [last] else Keep(excluded, front)
  {
    assert (front + [last])[..|front|] == front;
  }

  /** Giving one more to either of two parts gives one more to the whole. */
  lemma OneMore<T>(a: seq<T>, b: seq<T>, all: seq<T>, x: T)
    requires multiset(a) + multiset(b) == multiset(all)
    ensures multiset(a + [x]) + multiset(b) == multiset(all + [x]) == multiset(a) + multiset(b + [x])
  {
  }

  lemma KeepSplitsLast(front: seq<Candidate>, last: Candidate)
    requires multiset(Keep(false, front)) + multiset(Keep(true, front)) == multiset(front)
    ensures multiset(Keep(false, front + [last])) + multiset(Keep(true, front + [last])) == multiset(front + [last])
  {
    hide Keep;
    KeepLast(false, front, last);
    KeepLast(true, front, last);
    OneMore(Keep(false, front), Keep(true, front), front, last);
  }

  lemma {:induction false} KeepSplits(cs: seq<Candidate>)
    ensures multiset(Keep(false, cs)) + multiset(Keep(true, cs)) == multiset(cs)
  {
    if cs == [] {
      return;
    }
    hide Keep;
    var front, last := cs[..|cs| - 1], cs[|cs| - 1];
    KeepSplits(front);
    KeepSplitsLast(front, last);
    assert cs == front + [last];
  }

  lemma OrderedPermutes(marked: seq<Candidate>, width: real)
    requires width >= 0.0 && UniqueIds(marked)
    ensures multiset(Concat(AllGroups(marked, width))) == multiset(marked)
    ensures Concat(AllGroups(marked, width))
            == Concat(Bands(Keep(false, marked), width)) + Concat(Bands(Keep(true, marked), width))
  {
    var eligible, excluded := Keep(false, marked), Keep(true, marked);
    KeepUnique(false, marked);
    KeepUnique(true, marked);
    ScoreGroupsAreBands(eligible, width);
    ScoreGroupsAreBands(excluded, width);
    ConcatAppend(Bands(eligible, width), Bands(excluded, width));
    KeepSplits(marked);
  }

  lemma NamesPermute(cs: seq<Candidate>, ds: seq<Candidate>)
    requires multiset(cs) == multiset(ds) && UniqueIds(cs)
    ensures multiset(Names(cs)) == multiset(Names(ds))
  {
    UniqueIdsPermute(cs, ds);
    MembersAgree(cs, ds);
    forall id ensures id in Names(cs) <==> id in Names(ds) {
      if id in Names(cs) {
        var i :| 0 <= i < |cs| && cs[i].actionId == id;
        assert cs[i] in ds;
        var j :| 0 <= j < |ds| && ds[j] == cs[i];
        assert Names(ds)[j] == id;
      }
      if id in Names(ds) {
        var i :| 0 <= i < |ds| && ds[i].actionId == id;
        assert ds[i] in cs;
        var j :| 0 <= j < |cs| && cs[j] == ds[i];
        assert Names(cs)[j] == id;
      }
    }
    SameMembersPermute(Names(cs), Names(ds));
  }

  lemma KeptBands(excluded: bool, marked: seq<Candidate>, width: real)
    requires width >= 0.0 && UniqueIds(marked)
    ensures forall c :: c in Concat(Bands(Keep(excluded, marked), width)) ==> c.guardrailExcluded == excluded
  {
    KeepUnique(excluded, marked);
    ScoreGroupsAreBands(Keep(excluded, marked), width);
    KeepMembers(excluded, marked);
    MembersAgree(Concat(Bands(Keep(excluded, marked), width)), Keep(excluded, marked));
  }

  /** Nothing that a guardrail excludes comes before anything it does not. */
  ghost predicate EligibleFirst(cs: seq<Candidate>) {
    forall i, j :: 0 <= i < j < |cs| && cs[i].guardrailExcluded ==> cs[j].guardrailExcluded
  }

  lemma EligibleThenExcluded(front: seq<Candidate>, back: seq<Candidate>)
    requires forall c :: c in front ==> !c.guardrailExcluded
    requires forall c :: c in back ==> c.guardrailExcluded
    ensures EligibleFirst(front + back)
  {
    var all := front + back;
    forall i, j | 0 <= i < j < |all| ensures all[i].guardrailExcluded ==> all[j].guardrailExcluded {
      if i < |front| {
        assert all[i] in front;
      } else {
        assert all[j] in back;
      }
    }
  }

  /** The ranking names every candidate exactly once, eligible ones first. */
  lemma RankingIsPermutation(cs: seq<Candidate>, width: real)
    requires width >= 0.0 && UniqueIds(cs)
    ensures multiset(Decided(cs, width).ordered) == multiset(Marked(cs))
    ensures multiset(Decided(cs, width).ranking) == multiset(Names(cs))
    ensures EligibleFirst(Decided(cs, width).ordered)
  {
    var marked := Marked(cs);
    MarkedIsUnique(cs);
    OrderedPermutes(marked, width);
    NamesPermute(marked, Concat(AllGroups(marked, width)));
    KeptBands(false, marked, width);
    KeptBands(true, marked, width);
    EligibleThenExcluded(Concat(Bands(Keep(false, marked), width)), Concat(Bands(Keep(true, marked), width)));
  }

  // ----- Independence of the input order -----

  lemma MarkedForgetsOrder(cs: seq<Candidate>, ds: seq<Candidate>)
    requires UniqueIds(cs) && multiset(cs) == multiset(ds)
    ensures multiset(Marked(cs)) == multiset(Marked(ds))
  {
    UniqueIdsPermute(cs, ds);
    MembersAgree(cs, ds);
    MarkedIsUnique(cs);
    MarkedIsUnique(ds);
    UniqueIdsAreDistinct(Marked(cs));
    UniqueIdsAreDistinct(Marked(ds));
    forall c ensures Mark(cs, c) == Mark(ds, c) {
      BlameFound(cs, c);
      BlameFound(ds, c);
      BlameIsUnique(cs, ds, c, BlameOf(cs, c), BlameOf(ds, c));
    }
    forall m ensures m in Marked(cs) <==> m in Marked(ds) {
      MarkedMember(cs, m);
      MarkedMember(ds, m);
    }
    SameMembersPermute(Marked(cs), Marked(ds));
  }

  lemma MarkedMember(cs: seq<Candidate>, m: Candidate)
    ensures m in Marked(cs) <==> exists c :: c in cs && Mark(cs, c) == m
  {
    if c :| c in cs && Mark(cs, c) == m {
      var i :| 0 <= i < |cs| && cs[i] == c;
      assert Marked(cs)[i] == m;
    }
    if m in Marked(cs) {
      var i :| 0 <= i < |cs| && Marked(cs)[i] == m;
      assert cs[i] in cs && Mark(cs, cs[i]) == m;
    }
  }

  lemma BandsForgetOrder(cs: seq<Candidate>, ds: seq<Candidate>, width: real)
    requires width >= 0.0 && UniqueIds(cs) && multiset(cs) == multiset(ds)
    ensures Bands(cs, width) == Bands(ds, width)
  {
    UniqueIdsPermute(cs, ds);
    UniqueIdsAreDistinct(cs);
    UniqueIdsAreDistinct(ds);
    RanksTotally(multiset(cs));
    SortForgetsOrder(RanksBefore, cs, ds);
  }

  lemma KeepPermutes(excluded: bool, cs: seq<Candidate>, ds: seq<Candidate>)
    requires UniqueIds(cs) && multiset(cs) == multiset(ds)
    ensures multiset(Keep(excluded, cs)) == multiset(Keep(excluded, ds))
  {
    UniqueIdsPermute(cs, ds);
    MembersAgree(cs, ds);
    KeepUnique(excluded, cs);
    KeepUnique(excluded, ds);
    KeepMembers(excluded, cs);
    KeepMembers(excluded, ds);
    UniqueIdsAreDistinct(Keep(excluded, cs));
    UniqueIdsAreDistinct(Keep(excluded, ds));
    SameMembersPermute(Keep(excluded, cs), Keep(excluded, ds));
  }

  /** The decision is the same in whatever order the candidates are given. */
  lemma DecisionForgetsOrder(cs: seq<Candidate>, ds: seq<Candidate>, width: real)
    requires width >= 0.0 && UniqueIds(cs) && multiset(cs) == multiset(ds)
    ensures Decided(cs, width) == Decided(ds, width)
  {
    MarkedForgetsOrder(cs, ds);
    MarkedIsUnique(cs);
    KeepPermutes(false, Marked(cs), Marked(ds));
    KeepPermutes(true, Marked(cs), Marked(ds));
    KeepUnique(false, Marked(cs));
    KeepUnique(true, Marked(cs));
    BandsForgetOrder(Keep(false, Marked(cs)), Keep(false, Marked(ds)), width);
    BandsForgetOrder(Keep(true, Marked(cs)), Keep(true, Marked(ds)), width);
  }

  // ----- The chosen action -----

  /** `best` has the pool's best ranking value, and `c` is least by tie key among those within `width` of it. */
  ghost predicate ChampionBy(pool: seq<Candidate>, best: Candidate, c: Candidate, width: real) {
    && c in pool && best in pool && best.rankingValue - c.rankingValue <= width
    && forall o :: o in pool ==>
         && o.rankingValue <= best.rankingValue
         && (o.actionId != c.actionId && best.rankingValue - o.rankingValue <= width ==> TieBefore(c, o))
  }

  ghost predicate Champion(pool: seq<Candidate>, c: Candidate, width: real) {
    exists best :: ChampionBy(pool, best, c, width)
  }

  /** The first of the first band is least in the tie order among all within the margin of the best. */
  lemma FirstIsChampion(pool: seq<Candidate>, gs: seq<seq<Candidate>>, leader: Candidate, width: real)
    requires gs != [] && gs[0] != [] && multiset(Concat(gs)) == multiset(pool) && Leads(pool, gs, 0, leader, width)
    requires StrictlySorted(TieBefore, gs[0])
    ensures Champion(pool, gs[0][0], width)
  {
    var c: Candidate := gs[0][0];
    assert c in gs[0];
    MembersAgree(Concat(gs), pool);
    ConcatMember(gs, c);
    ConcatMember(gs, leader);
    forall o | o in pool
      ensures o.rankingValue <= leader.rankingValue
      ensures o.actionId != c.actionId && leader.rankingValue - o.rankingValue <= width ==> TieBefore(c, o)
    {
      assert o in Concat(gs);
      ConcatMember(gs, o);
      var i :| 0 <= i < |gs| && o in gs[i];
      if i == 0 {
        var k :| 0 <= k < |gs[0]| && gs[0][k] == o;
      }
    }
    assert ChampionBy(pool, leader, c, width);
  }

  lemma HeadIsChampion(pool: seq<Candidate>, width: real)
    requires width >= 0.0 && pool != [] && UniqueIds(pool)
    ensures var gs := Bands(pool, width);
            gs != [] && gs[0] != [] && Concat(gs) != [] && Concat(gs)[0] == gs[0][0] && Champion(pool, gs[0][0], width)
  {
    var gs := Bands(pool, width);
    ScoreGroupsAreBands(pool, width);
    hide Bands, UniqueIds;
    MembersAgree(Concat(gs), pool);
    assert pool[0] in Concat(gs);
    assert gs == [gs[0]] + gs[1..];
    ConcatCons(gs[0], gs[1..]);
    assert gs != [] && Led(pool, gs, 0, width);
    var leader: Candidate :| Leads(pool, gs, 0, leader, width);
    FirstIsChampion(pool, gs, leader, width);
  }

  /** The candidates a choice is made from: the eligible ones, or all of them when none is. */
  function Pool(cs: seq<Candidate>): seq<Candidate> {
    if Keep(false, cs) != [] then Keep(false, cs) else Keep(true, cs)
  }

  lemma KeepMarked(cs: seq<Candidate>, excluded: bool, m: Candidate)
    ensures m in Keep(excluded, Marked(cs)) <==> exists c :: c in Keep(excluded, cs) && Mark(cs, c) == m
  {
    MarkedMember(cs, m);
    KeepMembers(excluded, Marked(cs));
    KeepMembers(excluded, cs);
  }

  lemma PoolMarked(cs: seq<Candidate>, m: Candidate)
    ensures m in Pool(Marked(cs)) <==> exists c :: c in Pool(cs) && Mark(cs, c) == m
  {
    KeepMarked(cs, false, m);
    KeepMarked(cs, true, m);
    if Keep(false, cs) != [] {
      var c := Keep(false, cs)[0];
      KeepMarked(cs, false, Mark(cs, c));
    }
    if Keep(false, Marked(cs)) != [] {
      KeepMarked(cs, false, Keep(false, Marked(cs))[0]);
    }
  }

  lemma ChampionUnmarked(cs: seq<Candidate>, best: Candidate, c: Candidate, width: real)
    requires best in Pool(cs) && c in Pool(cs)
    requires ChampionBy(Pool(Marked(cs)), Mark(cs, best), Mark(cs, c), width)
    ensures ChampionBy(Pool(cs), best, c, width)
  {
    forall o | o in Pool(cs)
      ensures o.rankingValue <= best.rankingValue
      ensures o.actionId != c.actionId && best.rankingValue - o.rankingValue <= width ==> TieBefore(c, o)
    {
      PoolMarked(cs, Mark(cs, o));
      assert Mark(cs, o) in Pool(Marked(cs));
    }
  }

  lemma ChampionMarked(cs: seq<Candidate>, m: Candidate, width: real)
    requires Champion(Pool(Marked(cs)), m, width)
    ensures exists c :: Champion(Pool(cs), c, width) && c.actionId == m.actionId
  {
    var top :| ChampionBy(Pool(Marked(cs)), top, m, width);
    PoolMarked(cs, m);
    PoolMarked(cs, top);
    var c :| c in Pool(cs) && Mark(cs, c) == m;
    var best :| best in Pool(cs) && Mark(cs, best) == top;
    ChampionUnmarked(cs, best, c, width);
    assert Champion(Pool(cs), c, width);
  }

  /** The list opens with the eligible candidates, or with the excluded ones if nobody is eligible. */
  lemma PoolComesFirst(marked: seq<Candidate>, width: real)
    requires width >= 0.0 && UniqueIds(marked)
    ensures Concat(Bands(Pool(marked), width)) <= Concat(AllGroups(marked, width))
  {
    OrderedPermutes(marked, width);
    assert Concat(Bands([], width)) == [];
  }

  lemma PoolIsUnique(marked: seq<Candidate>)
    requires UniqueIds(marked) && marked != []
    ensures Pool(marked) != [] && UniqueIds(Pool(marked))
  {
    KeepUnique(false, marked);
    KeepUnique(true, marked);
    KeepSplits(marked);
    assert |multiset(marked)| == |marked| > 0;
  }

  /**
   * The chosen action is an eligible one whenever there is one, and it minimises the tie key
   * among all those within the margin of the best.
   */
  lemma ChosenIsChampion(cs: seq<Candidate>, width: real)
    requires width >= 0.0 && cs != [] && UniqueIds(cs)
    ensures exists c :: Champion(Pool(cs), c, width) && c.actionId == Decided(cs, width).chosen
  {
    var marked := Marked(cs);
    MarkedIsUnique(cs);
    PoolIsUnique(marked);
    HeadIsChampion(Pool(marked), width);
    PoolComesFirst(marked, width);
    ChampionMarked(cs, Bands(Pool(marked), width)[0][0], width);
  }

  /** How the tie is decided, criterion by criterion. */
  ghost predicate PreferredTo(c: Candidate, o: Candidate) {
    && c.selectionPenalty <= o.selectionPenalty
    && (c.selectionPenalty == o.selectionPenalty ==>
          && c.uncertaintySpan <= o.uncertaintySpan
          && (c.uncertaintySpan == o.uncertaintySpan ==>
                && c.irreversibleCost <= o.irreversibleCost
                && (c.irreversibleCost == o.irreversibleCost ==>
                      c.actionId == o.actionId || Earlier(c.actionId, o.actionId))))
  }

  /** The candidates that may be chosen: those no guardrail excludes, or everybody if it excludes all. */
  ghost predicate MayBeChosen(cs: seq<Candidate>, c: Candidate) {
    c in cs && (c.guardrailExcluded ==> forall o :: o in cs ==> o.guardrailExcluded)
  }

  ghost predicate ChosenAmong(cs: seq<Candidate>, best: Candidate, c: Candidate, width: real) {
    && MayBeChosen(cs, best) && MayBeChosen(cs, c)
    && best.rankingValue - c.rankingValue <= width
    && forall o :: MayBeChosen(cs, o) ==>
         && o.rankingValue <= best.rankingValue
         && (best.rankingValue - o.rankingValue <= width ==> PreferredTo(c, o))
  }

  lemma PoolMayBeChosen(cs: seq<Candidate>, c: Candidate)
    ensures c in Pool(cs) <==> MayBeChosen(cs, c)
  {
    KeepMembers(false, cs);
    KeepMembers(true, cs);
    if Keep(false, cs) != [] {
      assert Keep(false, cs)[0] in Keep(false, cs);
    }
  }

  lemma TieIsPreference(c: Candidate, o: Candidate)
    ensures c == o || TieBefore(c, o) ==> PreferredTo(c, o)
  {
    LexDecides(c.actionId, o.actionId);
  }

  /**
   * The chosen action may be chosen and lies within the margin of the best that may; among all of those it has
   * the least tail risk, then the least uncertainty, then the lowest irreversible cost, then the first name.
   */
  lemma ChosenIsPreferred(cs: seq<Candidate>, width: real)
    requires width >= 0.0 && cs != [] && UniqueIds(cs)
    ensures exists best, c :: ChosenAmong(cs, best, c, width) && c.actionId == Decided(cs, width).chosen
  {
    ChosenIsChampion(cs, width);
    var c :| Champion(Pool(cs), c, width) && c.actionId == Decided(cs, width).chosen;
    var best :| ChampionBy(Pool(cs), best, c, width);
    PoolMayBeChosen(cs, best);
    PoolMayBeChosen(cs, c);
    UniqueIdsAreDistinct(cs);
    hide Pool, Decided, UniqueIds, TieBefore, PreferredTo;
    forall o | MayBeChosen(cs, o)
      ensures o.rankingValue <= best.rankingValue
      ensures best.rankingValue - o.rankingValue <= width ==> PreferredTo(c, o)
    {
      PoolMayBeChosen(cs, o);
      TieIsPreference(c, o);
      assert o in multiset(cs) && c in multiset(cs);
    }
    assert ChosenAmong(cs, best, c, width);
  }

  /** In every near tie the winner comes before all the others by the tie key. */
  lemma TieWinners(cs: seq<Candidate>, width: real)
    requires width >= 0.0 && UniqueIds(cs)
    ensures forall g :: g in AllGroups(Marked(cs), width) ==> StrictlySorted(TieBefore, g) && g != []
    ensures |Decided(cs, width).tieBreaks| == |Decided(cs, width).nearTies|
    ensures forall i :: 0 <= i < |Decided(cs, width).tieBreaks| ==>
              exists g: seq<Candidate> :: g in AllGroups(Marked(cs), width) && |g| > 1
                && Decided(cs, width).nearTies[i] == Decided(cs, width).tieBreaks[i].actionIds == Names(g)
                && Decided(cs, width).tieBreaks[i].winner == g[0].actionId
  {
    var marked := Marked(cs);
    MarkedIsUnique(cs);
    KeepUnique(false, marked);
    KeepUnique(true, marked);
    ScoreGroupsAreBands(Keep(false, marked), width);
    ScoreGroupsAreBands(Keep(true, marked), width);
    var groups := AllGroups(marked, width);
    CrowdedMembers(groups);
    forall i | 0 <= i < |TieBreaks(groups)|
      ensures exists g: seq<Candidate> :: g in groups && |g| > 1
                && NearTies(groups)[i] == TieBreaks(groups)[i].actionIds == Names(g)
                && TieBreaks(groups)[i].winner == g[0].actionId
    {
      assert Crowded(groups)[i] in Crowded(groups);
    }
  }
}
