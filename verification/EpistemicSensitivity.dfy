/** Re-ranking the candidates in every joint hidden state. */
module EpistemicSensitivity {
  import opened Common
  import opened Scoring
  import opened Sequences
  import opened Sorting
  import opened MetricRanges
  import opened Selection
  import opened SelectionLaws
  import opened EpistemicJoin

  datatype Offer = Offer(assignments: seq<Assignment>, evaluation: Candidate)

  /** All of an action's scenarios are over the same keys, and no two are alike. */
  predicate OneDomain(offers: seq<Offer>) {
    forall i, j :: 0 <= i < j < |offers| ==>
      && KeysOf(offers[i].assignments) == KeysOf(offers[j].assignments)
      && offers[i].assignments != offers[j].assignments
  }

  predicate Matches(offer: Offer, joint: State) {
    Agrees(joint, offer.assignments)
  }

  /** Two scenarios over the same keys that agree with one state are the same scenario. */
  lemma AgreeOnce(m: State, t: seq<Assignment>, u: seq<Assignment>)
    requires KeysOf(t) == KeysOf(u) && Agrees(m, t) && Agrees(m, u)
    ensures t == u
  {
    forall i | 0 <= i < |t| ensures t[i] == u[i] {
      assert t[i] in t && u[i] in u;
      assert KeysOf(t)[i] == KeysOf(u)[i];
    }
  }

  /** The evaluations offered for the state `joint`. */
  function Matching(offers: seq<Offer>, joint: State): seq<Candidate> {
    if offers == [] then []
    else
      var last := offers[|offers| - 1];
      Matching(offers[..|offers| - 1], joint) + (if Matches(last, joint) then [last.evaluation] else [])
  }

  lemma {:induction false} MatchingFound(offers: seq<Offer>, joint: State)
    ensures forall o :: o in offers && Matches(o, joint) ==> o.evaluation in Matching(offers, joint)
    ensures forall e :: e in Matching(offers, joint) ==> exists o :: o in offers && o.evaluation == e
  {
    if offers != [] {
      MatchingFound(offers[..|offers| - 1], joint);
      assert forall o :: o in offers <==> o in offers[..|offers| - 1] || o == offers[|offers| - 1];
    }
  }

  method ScenarioCandidate(base: Candidate, joint: State, offers: seq<Offer>) returns (r: Result<Candidate, string>)
    ensures r.Err? <==> |Matching(offers, joint)| > 1
    ensures r.Ok? ==> r.value == if Matching(offers, joint) == [] then base else Matching(offers, joint)[0]
  {
    var matches := [];
    for i := 0 to |offers|
      invariant matches == Matching(offers[..i], joint)
    {
      assert offers[..i + 1][..i] == offers[..i];
      if Matches(offers[i], joint) {
        matches := matches + [offers[i].evaluation];
      }
    }
    assert offers[..|offers|] == offers;
    if |matches| > 1 {
      return Err("multiple scenario evaluations matched one joint hidden state");
    }
    r := Ok(if matches == [] then base else matches[0]);
  }

  lemma {:induction false} NoneMatch(offers: seq<Offer>, joint: State)
    requires forall o :: o in offers ==> !Matches(o, joint)
    ensures Matching(offers, joint) == []
  {
    if offers != [] {
      NoneMatch(offers[..|offers| - 1], joint);
    }
  }

  /** Scenarios over one domain never match twice, so no joint state is ambiguous. */
  lemma {:induction false} MatchesAtMostOnce(offers: seq<Offer>, joint: State)
    requires OneDomain(offers)
    ensures |Matching(offers, joint)| <= 1
  {
    if offers != [] {
      var n := |offers| - 1;
      MatchesAtMostOnce(offers[..n], joint);
      if Matches(offers[n], joint) {
        forall o | o in offers[..n] ensures !Matches(o, joint) {
          var i :| 0 <= i < n && offers[i] == o;
          if Matches(o, joint) {
            AgreeOnce(joint, o.assignments, offers[n].assignments);
          }
        }
        NoneMatch(offers[..n], joint);
      }
    }
  }

  /** An action offering a whole domain is matched by every state of the join, exactly once. */
  lemma WholeDomainMatches(scenarios: seq<seq<Assignment>>, offers: seq<Offer>, joint: State)
    requires OneDomain(offers) && offers != [] && NaturalJoin(scenarios, joint)
    requires offers[0].assignments in scenarios
    requires forall t :: t in scenarios && KeysOf(t) == KeysOf(offers[0].assignments) ==>
               exists i :: 0 <= i < |offers| && offers[i].assignments == t
    ensures |Matching(offers, joint)| == 1
  {
    MatchesAtMostOnce(offers, joint);
    var keys := KeysOf(offers[0].assignments);
    assert Satisfied(scenarios, keys, joint);
    var t :| t in scenarios && KeysOf(t) == keys && Agrees(joint, t);
    var i :| 0 <= i < |offers| && offers[i].assignments == t;
    assert offers[i] in offers && Matches(offers[i], joint);
    MatchingFound(offers, joint);
  }

  // ----- Ranking again in every joint state -----

  type Offers = map<string, seq<Offer>>

  predicate AllNamed(offers: seq<Offer>, id: string) {
    forall i :: 0 <= i < |offers| ==> offers[i].evaluation.actionId == id
  }

  /** What scenario extraction supplies: each action's scenarios are distinct, over one domain, and its own. */
  predicate Coherent(offers: Offers) {
    forall id :: id in offers ==> OneDomain(offers[id]) && AllNamed(offers[id], id)
  }

  function OffersFor(offers: Offers, id: string): seq<Offer> {
    if id in offers then offers[id] else []
  }

  /** What `base` becomes in the state `joint`. */
  function InState(base: Candidate, joint: State, offers: Offers): Candidate {
    var matches := Matching(OffersFor(offers, base.actionId), joint);
    if matches == [] then base else matches[0]
  }

  lemma InStateKeepsName(base: Candidate, joint: State, offers: Offers)
    requires Coherent(offers)
    ensures InState(base, joint, offers).actionId == base.actionId
  {
    var matches := Matching(OffersFor(offers, base.actionId), joint);
    MatchingFound(OffersFor(offers, base.actionId), joint);
    if matches != [] {
      assert matches[0] in matches;
    }
  }

  function AllInState(cs: seq<Candidate>, joint: State, offers: Offers): (r: seq<Candidate>)
    ensures |r| == |cs|
  {
    seq(|cs|, i requires 0 <= i < |cs| => InState(cs[i], joint, offers))
  }

  lemma AllInStateKeepNames(cs: seq<Candidate>, joint: State, offers: Offers)
    requires Coherent(offers)
    ensures Names(AllInState(cs, joint, offers)) == Names(cs)
    ensures UniqueIds(cs) ==> UniqueIds(AllInState(cs, joint, offers))
  {
    forall i | 0 <= i < |cs| ensures InState(cs[i], joint, offers).actionId == cs[i].actionId {
      InStateKeepsName(cs[i], joint, offers);
    }
  }

  /** The decision taken if `joint` were known to hold. */
  function Informed(cs: seq<Candidate>, joint: State, offers: Offers, margin: real): Decision
    requires margin >= 0.0
  {
    Decided(AllInState(cs, joint, offers), margin + TOLERANCE)
  }

  function InformedIn(cs: seq<Candidate>, offers: Offers, margin: real): State -> Decision
    requires margin >= 0.0
  {
    (joint: State) => Informed(cs, joint, offers, margin)
  }

  lemma InformedRanks(d: Decision, cs: seq<Candidate>, joint: State, offers: Offers, margin: real)
    requires margin >= 0.0 && UniqueIds(cs) && Coherent(offers)
    requires d == InformedIn(cs, offers, margin)(joint)
    ensures multiset(d.ranking) == multiset(Names(cs))
  {
    AllInStateKeepNames(cs, joint, offers);
    RankingIsPermutation(AllInState(cs, joint, offers), margin + TOLERANCE);
  }

  method CandidatesInState(cs: seq<Candidate>, joint: State, offers: Offers) returns (candidates: seq<Candidate>)
    requires Coherent(offers)
    ensures candidates == AllInState(cs, joint, offers)
  {
    candidates := [];
    for i := 0 to |cs|
      invariant candidates == AllInState(cs, joint, offers)[..i]
    {
      var mine := OffersFor(offers, cs[i].actionId);
      MatchesAtMostOnce(mine, joint);
      var candidate := ScenarioCandidate(cs[i], joint, mine);
      candidates := candidates + [candidate.value];
    }
  }

  method DecideInState(cs: seq<Candidate>, joint: State, offers: Offers, margin: real)
    returns (r: Result<Decision, string>)
    requires margin >= 0.0 && cs != [] && UniqueIds(cs) && Coherent(offers)
    ensures r == Ok(InformedIn(cs, offers, margin)(joint))
  {
    AllInStateKeepNames(cs, joint, offers);
    var candidates := CandidatesInState(cs, joint, offers);
    r := Select(candidates, margin);
  }

  /** `id` stands at position `rank`. */
  predicate StandsAt(ranking: seq<string>, id: string, rank: nat) {
    rank < |ranking| && ranking[rank] == id
  }

  ghost predicate RankSeen(rankings: seq<seq<string>>, id: string, rank: nat) {
    exists r :: r in rankings && StandsAt(r, id, rank)
  }

  /** Two of the rankings put `id` in different places. */
  ghost predicate Moves(rankings: seq<seq<string>>, id: string) {
    exists p: nat, q: nat :: p != q && RankSeen(rankings, id, p) && RankSeen(rankings, id, q)
  }

  method RecordRanks(ids: seq<string>, rankings: seq<seq<string>>) returns (positions: map<string, set<nat>>)
    requires forall r, i :: r in rankings && 0 <= i < |r| ==> r[i] in ids
    ensures positions.Keys == set id | id in ids
    ensures forall id, rank: nat :: id in ids ==> (rank in positions[id] <==> RankSeen(rankings, id, rank))
  {
    positions := map id | id in ids :: {};
    for i := 0 to |rankings|
      invariant positions.Keys == set id | id in ids
      invariant forall id, rank: nat :: id in ids ==> (rank in positions[id] <==> RankSeen(rankings[..i], id, rank))
    {
      positions := RecordOne(ids, rankings[..i], rankings[i], positions);
      assert rankings[..i + 1] == rankings[..i] + [rankings[i]];
    }
    assert rankings[..|rankings|] == rankings;
  }

  method RecordOne(ids: seq<string>, ghost seen: seq<seq<string>>, ranking: seq<string>, before: map<string, set<nat>>)
    returns (positions: map<string, set<nat>>)
    requires before.Keys == (set id | id in ids) && forall i :: 0 <= i < |ranking| ==> ranking[i] in ids
    requires forall id, rank: nat :: id in ids ==> (rank in before[id] <==> RankSeen(seen, id, rank))
    ensures positions.Keys == set id | id in ids
    ensures forall id, rank: nat :: id in ids ==> (rank in positions[id] <==> RankSeen(seen + [ranking], id, rank))
  {
    positions := before;
    for rank := 0 to |ranking|
      invariant positions.Keys == set id | id in ids
      invariant forall id, p: nat :: id in ids ==>
                  (p in positions[id] <==> p in before[id] || (p < rank && StandsAt(ranking, id, p)))
    {
      positions := positions[ranking[rank] := positions[ranking[rank]] + {rank}];
    }
    forall id, p: nat | id in ids
      ensures RankSeen(seen + [ranking], id, p) <==> RankSeen(seen, id, p) || StandsAt(ranking, id, p)
    {
      SeenOneMore(seen, ranking, id, p);
    }
  }

  lemma SeenOneMore(seen: seq<seq<string>>, ranking: seq<string>, id: string, p: nat)
    ensures RankSeen(seen + [ranking], id, p) <==> RankSeen(seen, id, p) || StandsAt(ranking, id, p)
  {
    if r :| r in seen && StandsAt(r, id, p) {
      assert r in seen + [ranking];
    }
    assert ranking in seen + [ranking];
  }

  lemma ManyElements(s: set<nat>)
    ensures |s| > 1 <==> exists p, q :: p in s && q in s && p != q
  {
    if |s| > 1 {
      var p :| p in s;
      var rest := s - {p};
      assert |rest| == |s| - 1;
      var q :| q in rest;
      assert p in s && q in s && p != q;
    }
    if p, q :| p in s && q in s && p != q {
      assert {p, q} <= s && |{p, q}| == 2;
      assert |s - {p, q}| == |s| - 2;
    }
  }

  /** Two of the choices differ. */
  ghost predicate Differ(choices: seq<string>) {
    exists i, j :: 0 <= i < j < |choices| && choices[i] != choices[j]
  }

  datatype Sensitivity = Sensitivity(candidates: map<string, bool>, choice: bool)

  /** The decisions taken in the first states, one for one; `informed` is what would be decided in a known state. */
  ghost predicate AllInformed(decisions: seq<Decision>, informed: State -> Decision, joints: seq<State>) {
    |decisions| <= |joints| && forall i :: 0 <= i < |decisions| ==> decisions[i] == informed(joints[i])
  }

  lemma OneMoreInformed(decisions: seq<Decision>, informed: State -> Decision, joints: seq<State>)
    requires |decisions| < |joints| && AllInformed(decisions, informed, joints)
    ensures AllInformed(decisions + [informed(joints[|decisions|])], informed, joints)
  {
  }

  method RankInStates(cs: seq<Candidate>, joints: seq<State>, offers: Offers, margin: real)
    returns (decisions: seq<Decision>)
    requires margin >= 0.0 && cs != [] && UniqueIds(cs) && Coherent(offers)
    ensures |decisions| == |joints| && AllInformed(decisions, InformedIn(cs, offers, margin), joints)
  {
    ghost var informed := InformedIn(cs, offers, margin);
    decisions := [];
    for i := 0 to |joints|
      invariant |decisions| == i && AllInformed(decisions, informed, joints)
    {
      var decision := DecideInState(cs, joints[i], offers, margin);
      OneMoreInformed(decisions, informed, joints);
      decisions := decisions + [decision.value];
    }
  }

  function Rankings(decisions: seq<Decision>): (r: seq<seq<string>>)
    ensures |r| == |decisions|
  {
    seq(|decisions|, i requires 0 <= i < |decisions| => decisions[i].ranking)
  }

  function Choices(decisions: seq<Decision>): (r: seq<string>)
    ensures |r| == |decisions|
  {
    seq(|decisions|, i requires 0 <= i < |decisions| => decisions[i].chosen)
  }

  lemma RanksAreNames(decisions: seq<Decision>, names: seq<string>)
    requires forall i :: 0 <= i < |decisions| ==> multiset(decisions[i].ranking) == multiset(names)
    ensures forall r, k :: r in Rankings(decisions) && 0 <= k < |r| ==> r[k] in names
  {
    forall r, k | r in Rankings(decisions) && 0 <= k < |r| ensures r[k] in names {
      var i :| 0 <= i < |decisions| && Rankings(decisions)[i] == r;
      MembersAgree(decisions[i].ranking, names);
    }
  }

  method Flag(names: seq<string>, decisions: seq<Decision>) returns (r: Sensitivity)
    requires forall i :: 0 <= i < |decisions| ==> multiset(decisions[i].ranking) == multiset(names)
    ensures r.candidates.Keys == set id | id in names
    ensures forall id :: id in names ==> (r.candidates[id] <==> Moves(Rankings(decisions), id))
    ensures r.choice <==> Differ(Choices(decisions))
  {
    RanksAreNames(decisions, names);
    var positions := RecordRanks(names, Rankings(decisions));
    forall id | id in names ensures |positions[id]| > 1 <==> Moves(Rankings(decisions), id) {
      ManyPositions(positions[id], Rankings(decisions), id);
    }
    var choices := Choices(decisions);
    ManyChoices(choices);
    var chosen := set k | 0 <= k < |choices| :: choices[k];
    r := Sensitivity(map id | id in names :: |positions[id]| > 1, |chosen| > 1);
  }

  lemma ManyPositions(positions: set<nat>, rankings: seq<seq<string>>, id: string)
    requires forall rank: nat :: rank in positions <==> RankSeen(rankings, id, rank)
    ensures |positions| > 1 <==> Moves(rankings, id)
  {
    ManyElements(positions);
  }

  lemma ManyChoices(choices: seq<string>)
    ensures var chosen := set k | 0 <= k < |choices| :: choices[k];
            |chosen| > 1 <==> Differ(choices)
  {
    var chosen := set k | 0 <= k < |choices| :: choices[k];
    if |chosen| > 1 {
      var p :| p in chosen;
      var rest := chosen - {p};
      assert |rest| == |chosen| - 1;
      var q :| q in rest;
      var i :| 0 <= i < |choices| && choices[i] == p;
      var j :| 0 <= j < |choices| && choices[j] == q;
      assert i < j || j < i;
    }
    if i, j :| 0 <= i < j < |choices| && choices[i] != choices[j] {
      var two := {choices[i], choices[j]};
      assert two <= chosen && |two| == 2;
      assert |chosen - two| == |chosen| - 2;
    }
  }

  // ----- Sensitivity over the natural join -----

  /** A hidden state that all the offered scenarios together allow; none is considered when nothing is offered. */
  ghost predicate Possible(features: seq<seq<seq<Assignment>>>, m: State) {
    Concat(features) != [] && NaturalJoin(Concat(features), m)
  }

  /** Two possible states, if they were known to hold, place `id` differently. */
  ghost predicate PlacesDiffer(informed: State -> Decision, features: seq<seq<seq<Assignment>>>, id: string) {
    exists m, n, p: nat, q: nat ::
      && Possible(features, m) && Possible(features, n) && p != q
      && StandsAt(informed(m).ranking, id, p) && StandsAt(informed(n).ranking, id, q)
  }

  predicate ChooseApart(d: Decision, e: Decision) {
    d.chosen != e.chosen
  }

  /** Two possible states, if they were known to hold, choose differently. */
  ghost predicate ChoicesDiffer(informed: State -> Decision, features: seq<seq<seq<Assignment>>>) {
    exists m, n ::
      Possible(features, m) && Possible(features, n) && ChooseApart(informed(m), informed(n))
  }

  lemma SeenInState(decisions: seq<Decision>, informed: State -> Decision, joints: seq<State>, id: string, rank: nat)
    returns (m: State)
    requires AllInformed(decisions, informed, joints) && RankSeen(Rankings(decisions), id, rank)
    ensures m in joints && StandsAt(informed(m).ranking, id, rank)
  {
    var r :| r in Rankings(decisions) && StandsAt(r, id, rank);
    var i :| 0 <= i < |decisions| && Rankings(decisions)[i] == r;
    m := joints[i];
  }

  lemma StateIsSeen(
      decisions: seq<Decision>, informed: State -> Decision, joints: seq<State>, id: string, rank: nat, m: State)
    requires |decisions| == |joints| && AllInformed(decisions, informed, joints)
    requires m in joints && StandsAt(informed(m).ranking, id, rank)
    ensures RankSeen(Rankings(decisions), id, rank)
  {
    var i :| 0 <= i < |joints| && joints[i] == m;
    assert Rankings(decisions)[i] == informed(m).ranking && Rankings(decisions)[i] in Rankings(decisions);
  }

  lemma MovesIffPlaced(decisions: seq<Decision>, informed: State -> Decision, joints: seq<State>,
                        features: seq<seq<seq<Assignment>>>, id: string)
    requires |decisions| == |joints| && AllInformed(decisions, informed, joints)
    requires forall m :: m in joints <==> Possible(features, m)
    ensures Moves(Rankings(decisions), id) <==> PlacesDiffer(informed, features, id)
  {
    if Moves(Rankings(decisions), id) {
      var p: nat, q: nat :| p != q && RankSeen(Rankings(decisions), id, p) && RankSeen(Rankings(decisions), id, q);
      var m := SeenInState(decisions, informed, joints, id, p);
      var n := SeenInState(decisions, informed, joints, id, q);
      assert Possible(features, m) && Possible(features, n);
    }
    if PlacesDiffer(informed, features, id) {
      var m, n, p: nat, q: nat :|
        && Possible(features, m) && Possible(features, n) && p != q
        && StandsAt(informed(m).ranking, id, p) && StandsAt(informed(n).ranking, id, q);
      StateIsSeen(decisions, informed, joints, id, p, m);
      StateIsSeen(decisions, informed, joints, id, q, n);
    }
  }

  lemma TwoChoicesDiffer(choices: seq<string>, i: nat, j: nat)
    requires i < |choices| && j < |choices| && choices[i] != choices[j]
    ensures Differ(choices)
  {
    assert i < j || j < i;
  }

  lemma ChoiceIn(decisions: seq<Decision>, informed: State -> Decision, joints: seq<State>, i: nat)
    requires |decisions| == |joints| && AllInformed(decisions, informed, joints) && i < |joints|
    ensures Choices(decisions)[i] == informed(joints[i]).chosen
  {
  }

  lemma DifferIffChosen(decisions: seq<Decision>, informed: State -> Decision, joints: seq<State>,
                         features: seq<seq<seq<Assignment>>>)
    requires |decisions| == |joints| && AllInformed(decisions, informed, joints)
    requires forall m :: m in joints <==> Possible(features, m)
    ensures Differ(Choices(decisions)) <==> ChoicesDiffer(informed, features)
  {
    hide Possible, Choices, AllInformed;
    if Differ(Choices(decisions)) {
      var i, j :| 0 <= i < j < |decisions| && Choices(decisions)[i] != Choices(decisions)[j];
      ChoiceIn(decisions, informed, joints, i);
      ChoiceIn(decisions, informed, joints, j);
      assert Possible(features, joints[i]) && Possible(features, joints[j]);
    }
    if ChoicesDiffer(informed, features) {
      var m, n :| Possible(features, m) && Possible(features, n) && ChooseApart(informed(m), informed(n));
      var i :| 0 <= i < |joints| && joints[i] == m;
      var j :| 0 <= j < |joints| && joints[j] == n;
      ChoiceIn(decisions, informed, joints, i);
      ChoiceIn(decisions, informed, joints, j);
      TwoChoicesDiffer(Choices(decisions), i, j);
    }
  }

  // ----- What a candidate becomes in a known state -----

  /** In the state `m`, `base` counts as what an offer that agrees with `m` evaluates it to; as itself if none does. */
  ghost predicate Becomes(base: Candidate, m: State, offers: Offers, c: Candidate) {
    || Evaluates(base, m, offers, c)
    || (c == base && forall d :: !Evaluates(base, m, offers, d))
  }

  /** An offer for `base` agrees with `m` and evaluates it to `c`. */
  ghost predicate Evaluates(base: Candidate, m: State, offers: Offers, c: Candidate) {
    && base.actionId in offers
    && exists o :: o in offers[base.actionId] && Agrees(m, o.assignments) && o.evaluation == c
  }

  lemma InStateBecomes(base: Candidate, m: State, offers: Offers)
    requires Coherent(offers)
    ensures Becomes(base, m, offers, InState(base, m, offers))
  {
    var mine := OffersFor(offers, base.actionId);
    var matches := Matching(mine, m);
    MatchingAgree(mine, m);
    MatchingFound(mine, m);
    if matches != [] {
      assert matches[0] in matches;
    } else {
      assert forall o :: o in mine ==> !Matches(o, m);
    }
  }

  lemma {:induction false} MatchingAgree(offers: seq<Offer>, m: State)
    ensures forall c :: c in Matching(offers, m) ==>
              exists o :: o in offers && Agrees(m, o.assignments) && o.evaluation == c
  {
    if offers != [] {
      MatchingAgree(offers[..|offers| - 1], m);
      assert forall o :: o in offers <==> o in offers[..|offers| - 1] || o == offers[|offers| - 1];
    }
  }

  /** On coherent offers there is just one thing to become. */
  lemma BecomesOnce(base: Candidate, m: State, offers: Offers, c: Candidate, d: Candidate)
    requires Coherent(offers) && Becomes(base, m, offers, c) && Becomes(base, m, offers, d)
    ensures c == d
  {
    if Evaluates(base, m, offers, c) && Evaluates(base, m, offers, d) {
      var mine := offers[base.actionId];
      var o :| o in mine && Agrees(m, o.assignments) && o.evaluation == c;
      var p :| p in mine && Agrees(m, p.assignments) && p.evaluation == d;
      OneOfDomain(mine, m, o, p);
    }
  }

  lemma OneOfDomain(mine: seq<Offer>, m: State, o: Offer, p: Offer)
    requires OneDomain(mine) && o in mine && p in mine && Agrees(m, o.assignments) && Agrees(m, p.assignments)
    ensures o == p
  {
    var i :| 0 <= i < |mine| && mine[i] == o;
    var j :| 0 <= j < |mine| && mine[j] == p;
    if i != j {
      assert i < j || j < i;
      AgreeOnce(m, o.assignments, p.assignments);
    }
  }

  /** One by one, the candidates become these. */
  ghost predicate AllBecome(cs: seq<Candidate>, m: State, offers: Offers, ds: seq<Candidate>) {
    |ds| == |cs| && forall i :: 0 <= i < |cs| ==> Becomes(cs[i], m, offers, ds[i])
  }

  lemma AllBecomeIff(cs: seq<Candidate>, m: State, offers: Offers, ds: seq<Candidate>)
    requires Coherent(offers)
    ensures AllBecome(cs, m, offers, ds) <==> ds == AllInState(cs, m, offers)
  {
    forall i | 0 <= i < |cs| ensures Becomes(cs[i], m, offers, AllInState(cs, m, offers)[i]) {
      InStateBecomes(cs[i], m, offers);
    }
    if AllBecome(cs, m, offers, ds) {
      forall i | 0 <= i < |cs| ensures ds[i] == AllInState(cs, m, offers)[i] {
        BecomesOnce(cs[i], m, offers, ds[i], AllInState(cs, m, offers)[i]);
      }
    }
  }

  /** With `m` known to hold, the candidates as they then are would be decided to `d`. */
  ghost predicate Knowing(cs: seq<Candidate>, m: State, offers: Offers, margin: real, d: Decision)
    requires margin >= 0.0
  {
    exists ds :: AllBecome(cs, m, offers, ds) && d == Decided(ds, margin + TOLERANCE)
  }

  lemma KnowingIff(cs: seq<Candidate>, m: State, offers: Offers, margin: real, d: Decision)
    requires margin >= 0.0 && Coherent(offers)
    ensures Knowing(cs, m, offers, margin, d) <==> d == InformedIn(cs, offers, margin)(m)
  {
    AllBecomeIff(cs, m, offers, AllInState(cs, m, offers));
    if ds :| AllBecome(cs, m, offers, ds) && d == Decided(ds, margin + TOLERANCE) {
      AllBecomeIff(cs, m, offers, ds);
    }
  }

  /** Two possible states, if they were known to hold, place `id` differently. */
  ghost predicate RankDepends(
      cs: seq<Candidate>, features: seq<seq<seq<Assignment>>>, offers: Offers, margin: real, id: string)
    requires margin >= 0.0
  {
    exists m, n, d, e, p: nat, q: nat ::
      && Possible(features, m) && Possible(features, n)
      && Knowing(cs, m, offers, margin, d) && Knowing(cs, n, offers, margin, e)
      && StandsAt(d.ranking, id, p) && StandsAt(e.ranking, id, q) && p != q
  }

  /** Two possible states, if they were known to hold, choose differently. */
  ghost predicate ChoiceDepends(
      cs: seq<Candidate>, features: seq<seq<seq<Assignment>>>, offers: Offers, margin: real)
    requires margin >= 0.0
  {
    exists m, n, d, e ::
      && Possible(features, m) && Possible(features, n)
      && Knowing(cs, m, offers, margin, d) && Knowing(cs, n, offers, margin, e) && ChooseApart(d, e)
  }

  lemma RankDependsIff(
      cs: seq<Candidate>, features: seq<seq<seq<Assignment>>>, offers: Offers, margin: real, id: string)
    requires margin >= 0.0 && Coherent(offers)
    ensures RankDepends(cs, features, offers, margin, id)
            <==> PlacesDiffer(InformedIn(cs, offers, margin), features, id)
  {
    var informed := InformedIn(cs, offers, margin);
    forall m, d ensures Knowing(cs, m, offers, margin, d) <==> d == informed(m) {
      KnowingIff(cs, m, offers, margin, d);
    }
    hide Knowing, InformedIn, Possible, StandsAt;
    if PlacesDiffer(informed, features, id) {
      var m, n, p: nat, q: nat :|
        && Possible(features, m) && Possible(features, n) && p != q
        && StandsAt(informed(m).ranking, id, p) && StandsAt(informed(n).ranking, id, q);
      assert Knowing(cs, m, offers, margin, informed(m)) && Knowing(cs, n, offers, margin, informed(n));
    }
  }

  lemma ChoiceDependsIff(cs: seq<Candidate>, features: seq<seq<seq<Assignment>>>, offers: Offers, margin: real)
    requires margin >= 0.0 && Coherent(offers)
    ensures ChoiceDepends(cs, features, offers, margin)
            <==> ChoicesDiffer(InformedIn(cs, offers, margin), features)
  {
    var informed := InformedIn(cs, offers, margin);
    hide Knowing, InformedIn, Possible, ChooseApart;
    if ChoicesDiffer(informed, features) {
      var m, n :| Possible(features, m) && Possible(features, n) && ChooseApart(informed(m), informed(n));
      KnowingIff(cs, m, offers, margin, informed(m));
      KnowingIff(cs, n, offers, margin, informed(n));
    }
    if ChoiceDepends(cs, features, offers, margin) {
      var m, n, d, e :|
        && Possible(features, m) && Possible(features, n)
        && Knowing(cs, m, offers, margin, d) && Knowing(cs, n, offers, margin, e) && ChooseApart(d, e);
      KnowingIff(cs, m, offers, margin, d);
      KnowingIff(cs, n, offers, margin, e);
    }
  }

  /**
   * A candidate is information-sensitive exactly if two states of the natural join of the scenarios rank
   * it differently, and the selection exactly if two of them choose differently; no state makes this fail.
   */
  method ApplySensitivity(cs: seq<Candidate>, features: seq<seq<seq<Assignment>>>, offers: Offers, margin: real)
    returns (r: Sensitivity)
    requires margin >= 0.0 && cs != [] && UniqueIds(cs) && Coherent(offers)
    ensures r.candidates.Keys == set id | id in Names(cs)
    ensures forall id :: id in Names(cs) ==> (r.candidates[id] <==> RankDepends(cs, features, offers, margin, id))
    ensures r.choice <==> ChoiceDepends(cs, features, offers, margin)
  {
    ghost var informed := InformedIn(cs, offers, margin);
    forall id ensures RankDepends(cs, features, offers, margin, id) <==> PlacesDiffer(informed, features, id) {
      RankDependsIff(cs, features, offers, margin, id);
    }
    ChoiceDependsIff(cs, features, offers, margin);
    r := SensitivityOfJoin(cs, features, offers, margin);
  }

  method SensitivityOfJoin(cs: seq<Candidate>, features: seq<seq<seq<Assignment>>>, offers: Offers, margin: real)
    returns (r: Sensitivity)
    requires margin >= 0.0 && cs != [] && UniqueIds(cs) && Coherent(offers)
    ensures r.candidates.Keys == set id | id in Names(cs)
    ensures forall id :: id in Names(cs) ==>
              (r.candidates[id] <==> PlacesDiffer(InformedIn(cs, offers, margin), features, id))
    ensures r.choice <==> ChoicesDiffer(InformedIn(cs, offers, margin), features)
  {
    var joint := JointAssignments(features);
    if joint == {} {
      return Sensitivity(map id | id in Names(cs) :: false, false);
    }
    var joints := Enumerate(joint);
    var decisions := RankInStates(cs, joints, offers, margin);
    ghost var informed := InformedIn(cs, offers, margin);
    forall i | 0 <= i < |joints| ensures multiset(decisions[i].ranking) == multiset(Names(cs)) {
      InformedRanks(decisions[i], cs, joints[i], offers, margin);
    }
    forall id ensures Moves(Rankings(decisions), id) <==> PlacesDiffer(informed, features, id) {
      MovesIffPlaced(decisions, informed, joints, features, id);
    }
    DifferIffChosen(decisions, informed, joints, features);
    r := Flag(Names(cs), decisions);
  }
}
