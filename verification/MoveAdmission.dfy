/** Which moves are carried out: the geometry, the costs and the strikes that must be in order, and nothing else. */
module MoveAdmission {
  import opened Common
  import opened AttackOutcomes
  import opened AttackKnowledge
  import opened AttackTargets
  import opened MoveLaws
  import opened Reactions
  import opened ReactionLaws
  import Sorting

  /** What is known of the mover can be struck at: weighted throughout, and exactly if the player must know it. */
  predicate Evaluable(playerLegal: bool, m: Mover) {
    && AllFieldsWeighted(m.hp, m.head, m.body)
    && Span(m.hp) > 0 && Span(m.head) > 0 && Span(m.body) > 0
    && (playerLegal ==> m.hp.Exact? && m.head.Exact? && m.body.Exact?)
  }

  /** A supported attack with a capped hit chance and a covered profile. */
  predicate Deliverable(r: Reaction) {
    && r.unsupportedMechanic.None? && r.skillId.Some? && r.profile.Some?
    && r.hitChance.Some? && 5 <= r.hitChance.value <= 95
  }

  predicate AllDeliverable(rs: seq<Reaction>) {
    forall i :: 0 <= i < |rs| ==> Deliverable(rs[i])
  }

  /** The reactor is a living hostile known to stand next to `tile`. */
  ghost predicate StandsBy(scene: Scene, reactor: string, tile: string) {
    && reactor in scene.figures && tile in scene.neighbors
    && exists at: string :: scene.figures[reactor] == Figure(true, true, Some(at)) && Some(at) in scene.neighbors[tile]
  }

  /** Every reaction answers the one step taken, from beside the tile being left, and each reactor only once. */
  ghost predicate ReactionsPlaced(scene: Scene, m: Mover, action: MoveAction) {
    action.reactions != [] ==>
      && m.position.Some? && |action.path| == 1
      && (forall i :: 0 <= i < |action.reactions| ==>
            && action.reactions[i].pathStep == action.path[0]
            && StandsBy(scene, action.reactions[i].reactorId, m.position.value))
      && (forall i, j :: 0 <= i < j < |action.reactions| ==>
            action.reactions[i].reactorId != action.reactions[j].reactorId)
  }

  /** The mover has the action points, and the fatigue stays within its capacity. */
  predicate Affordable(m: Mover, action: MoveAction) {
    && action.apCost.Some? && action.apCost.value <= m.ap
    && action.fatigueCost.Some? && action.fatigueCost.value <= m.fatigueCapacity - m.fatigue
  }

  // ----- Geometry -----

  lemma OneStepMatches(path: seq<string>, step: string)
    requires |path| == 1
    ensures Matches(path, step) == if path[0] == step then [0] else []
  {
    assert path[..0] == [];
  }

  lemma ObjectionIff(scene: Scene, m: Mover, action: MoveAction, r: Reaction)
    requires m.position.Some? && |action.path| == 1
    ensures Objection(scene, m, action, r).None?
            <==> r.pathStep == action.path[0] && StandsBy(scene, r.reactorId, m.position.value)
  {
    OneStepMatches(action.path, r.pathStep);
  }

  /** Validation, and the path check behind it, let through just the reactions in order. */
  ghost predicate WellPlaced(scene: Scene, m: Mover, action: MoveAction) {
    && FirstRefusal(scene, m, action, |action.reactions|).None?
    && (action.reactions != [] ==> |action.path| == 1 && m.position.Some?)
  }

  lemma PlacedIff(scene: Scene, m: Mover, action: MoveAction)
    ensures ReactionsPlaced(scene, m, action) <==> WellPlaced(scene, m, action)
  {
    var rs := action.reactions;
    RefusedIffNotOk(scene, m, action, |rs|);
    if rs != [] && m.position.Some? && |action.path| == 1 {
      forall i | 0 <= i < |rs|
        ensures Objection(scene, m, action, rs[i]).None?
                <==> rs[i].pathStep == action.path[0] && StandsBy(scene, rs[i].reactorId, m.position.value)
      {
        ObjectionIff(scene, m, action, rs[i]);
      }
    }
    hide Objection, StandsBy, FirstRefusal;
  }

  lemma {:induction false} MappedIsNotInvalid(scene: Scene, m: Mover, action: MoveAction, n: nat)
    requires OnTheMap(scene, m, action) && n <= |action.reactions|
    ensures FirstRefusal(scene, m, action, n) != Some(Invalid)
  {
    if n > 0 {
      MappedIsNotInvalid(scene, m, action, n - 1);
    }
  }

  // ----- Strikes -----

  lemma {:induction false} WeighFirst(bs: seq<OutcomeBranch>, w: real)
    ensures |Weigh(bs, w)| == |bs|
    ensures bs != [] ==> Weigh(bs, w)[0].killed == bs[0].killed
  {
    if |bs| > 1 {
      WeighFirst(bs[..|bs| - 1], w);
    }
  }

  ghost predicate SparesSomebody(bs: seq<OutcomeBranch>) {
    exists b :: b in bs && !b.killed
  }

  /** Wherever a case is integrated, its miss is among the branches. */
  lemma IntegratedSpares(a: Attack, cases: seq<Case>)
    requires CasesWeighted(cases, true) && cases != []
    ensures SparesSomebody(IntegratedOf(a, cases))
  {
    var c := cases[|cases| - 1];
    var bs := BranchesOf(a.(target := c.target));
    WeighFirst(bs, c.weight.value);
    var b := Weigh(bs, c.weight.value)[0];
    assert b in Weigh(bs, c.weight.value);
    assert b in IntegratedOf(a, cases) && !b.killed;
  }

  lemma CasesForWeighted(hp: Known, head: Known, body: Known)
    requires AllFieldsWeighted(hp, head, body)
    ensures CasesWeighted(CasesFor(hp, head, body), true)
  {
    CasesUniform(Values(hp).value, Values(head).value, Values(body).value);
  }

  lemma SomeCase(hp: Known, head: Known, body: Known)
    requires NothingUnknown(hp, head, body)
    ensures CasesFor(hp, head, body) != [] <==> Span(hp) > 0 && Span(head) > 0 && Span(body) > 0
  {
    CasesForAreAll(hp, head, body);
    ProductPositive(Span(head), Span(body));
    ProductPositive(Span(hp), Product(Span(head), Span(body)));
    hide CasesFor, Span, Product, HasTarget, MayBeTarget;
  }

  lemma ProductPositive(x: nat, y: nat)
    ensures Product(x, y) > 0 <==> x > 0 && y > 0
  {
  }

  /** A strike is carried out exactly if the reaction has a profile and its target can be evaluated. */
  lemma StrikeIff(playerLegal: bool, r: Reaction, hit: int, m: Mover)
    ensures Strike(playerLegal, r, hit, m).Ok? <==> r.profile.Some? && Evaluable(playerLegal, m)
    ensures Strike(playerLegal, r, hit, m).Ok? ==> SparesSomebody(Strike(playerLegal, r, hit, m).value)
  {
    if r.profile.Some? && NothingUnknown(m.hp, m.head, m.body) {
      var a := AttackOf(hit, r.profile.value);
      OutcomeOfCases(a, m.hp, m.head, m.body, playerLegal);
      EpistemicIff(a, m.hp, m.head, m.body, playerLegal);
      SomeCase(m.hp, m.head, m.body);
      if AllFieldsWeighted(m.hp, m.head, m.body) {
        CasesForWeighted(m.hp, m.head, m.body);
        if CasesFor(m.hp, m.head, m.body) != [] {
          IntegratedSpares(a, CasesFor(m.hp, m.head, m.body));
        }
      }
    }
    hide Outcome, CasesFor, IntegratedOf, ScenariosOf, Span, CasesWeighted, MayBeAll;
  }

  // ----- All strikes -----

  lemma {:induction false} StrikeAllIff(strike: Strikes, r: Reaction, ps: seq<Pending>)
    ensures StrikeAll(strike, r, ps).Ok? <==> forall p :: p in ps && p.mover.alive ==> strike(p.mover).Ok?
  {
    if ps != [] {
      var front, last := ps[..|ps| - 1], ps[|ps| - 1];
      StrikeAllIff(strike, r, front);
      assert forall p :: p in ps <==> p in front || p == last;
    }
  }

  ghost predicate SomebodyLives(ps: seq<Pending>) {
    exists p :: p in ps && p.mover.alive
  }

  /** Strikes by `r` are carried out at just the movers that are `fit`, if at all, and then may spare them. */
  ghost predicate Obliging(strike: Strikes, fit: Mover -> bool, r: Reaction) {
    forall m: Mover ::
      && (strike(m).Ok? <==> r.profile.Some? && fit(m))
      && (strike(m).Ok? ==> SparesSomebody(strike(m).value))
  }

  /** Whatever a strike leaves is fit to be struck at again. */
  ghost predicate StaysFit(fit: Mover -> bool) {
    forall p: Pending, r, b :: fit(Next(p, r, b).mover)
  }

  /** Somebody lives, and whoever does is fit. */
  ghost predicate Standing(fit: Mover -> bool, ps: seq<Pending>) {
    SomebodyLives(ps) && forall p :: p in ps && p.mover.alive ==> fit(p.mover)
  }

  lemma {:induction false} FollowLives(fit: Mover -> bool, p: Pending, r: Reaction, bs: seq<OutcomeBranch>)
    requires StaysFit(fit)
    ensures forall q :: q in Follow(p, r, bs) ==> fit(q.mover)
    ensures p.mover.alive && SparesSomebody(bs) ==> SomebodyLives(Follow(p, r, bs))
  {
    if bs != [] {
      var front, last := bs[..|bs| - 1], bs[|bs| - 1];
      FollowLives(fit, p, r, front);
      assert Next(p, r, last) in Follow(p, r, bs);
      if p.mover.alive && SparesSomebody(bs) && last.killed {
        var b :| b in bs && !b.killed;
        assert b in front;
        assert SparesSomebody(front);
        var q :| q in Follow(p, r, front) && q.mover.alive;
        assert q in Follow(p, r, bs);
      }
    }
  }

  lemma {:induction false} StrikeAllFollows(strike: Strikes, r: Reaction, ps: seq<Pending>, p: Pending)
    requires StrikeAll(strike, r, ps).Ok? && p in ps
    ensures p.mover.alive ==> strike(p.mover).Ok?
    ensures forall q :: q in Struck(strike, r, p) ==> q in StrikeAll(strike, r, ps).value
  {
    StrikeAllStep(strike, r, ps);
    if p != ps[|ps| - 1] {
      StrikeAllFollows(strike, r, ps[..|ps| - 1], p);
    }
  }

  lemma {:induction false} StruckIsFit(fit: Mover -> bool, strike: Strikes, r: Reaction, ps: seq<Pending>)
    requires StrikeAll(strike, r, ps).Ok? && StaysFit(fit)
    ensures forall q :: q in StrikeAll(strike, r, ps).value && q.mover.alive ==> fit(q.mover)
  {
    if ps != [] {
      var last := ps[|ps| - 1];
      StrikeAllStep(strike, r, ps);
      StruckIsFit(fit, strike, r, ps[..|ps| - 1]);
      if last.mover.alive {
        FollowLives(fit, last, r, strike(last.mover).value);
      }
    }
  }

  lemma StruckLives(fit: Mover -> bool, strike: Strikes, r: Reaction, ps: seq<Pending>)
    requires StrikeAll(strike, r, ps).Ok? && Obliging(strike, fit, r) && StaysFit(fit) && SomebodyLives(ps)
    ensures SomebodyLives(StrikeAll(strike, r, ps).value)
  {
    var p :| p in ps && p.mover.alive;
    StrikeAllFollows(strike, r, ps, p);
    FollowLives(fit, p, r, strike(p.mover).value);
    var q :| q in Follow(p, r, strike(p.mover).value) && q.mover.alive;
    assert q in Struck(strike, r, p);
  }

  /** A reaction leaves somebody alive, and everybody who lives fit to be struck at again. */
  lemma StrikeAllStands(fit: Mover -> bool, strike: Strikes, r: Reaction, ps: seq<Pending>)
    requires Obliging(strike, fit, r) && StaysFit(fit) && Standing(fit, ps)
    ensures StrikeAll(strike, r, ps).Ok? <==> r.profile.Some?
    ensures StrikeAll(strike, r, ps).Ok? ==> Standing(fit, StrikeAll(strike, r, ps).value)
  {
    StrikeAllIff(strike, r, ps);
    if r.profile.Some? {
      StruckIsFit(fit, strike, r, ps);
      StruckLives(fit, strike, r, ps);
    }
  }

  /** One more reaction. */
  lemma ReactStep(rule: StrikeRule, paid: Mover, rs: seq<Reaction>)
    requires rs != []
    ensures var before, r := ReactAll(rule, paid, rs[..|rs| - 1]), rs[|rs| - 1];
            && (ReactAll(rule, paid, rs).Ok? ==> before.Ok? && HitOf(r).Ok?)
            && (before.Ok? && HitOf(r).Ok? ==>
                  ReactAll(rule, paid, rs) == StrikeAll(Striker(rule, r, HitOf(r).value), r, before.value))
  {
  }

  ghost predicate AllObliging(rule: StrikeRule, fit: Mover -> bool) {
    forall r: Reaction, hit: int :: Obliging(Striker(rule, r, hit), fit, r)
  }

  lemma DeliverableStep(rs: seq<Reaction>)
    requires rs != []
    ensures AllDeliverable(rs) <==> AllDeliverable(rs[..|rs| - 1]) && Deliverable(rs[|rs| - 1])
  {
    hide Deliverable;
  }

  /** From a fit mover, all reactions are carried out exactly if each is deliverable. */
  lemma {:induction false} ReactAllIff(rule: StrikeRule, fit: Mover -> bool, paid: Mover, rs: seq<Reaction>)
    requires AllObliging(rule, fit) && StaysFit(fit) && paid.alive && fit(paid)
    ensures ReactAll(rule, paid, rs).Ok? <==> AllDeliverable(rs)
    ensures ReactAll(rule, paid, rs).Ok? ==> Standing(fit, ReactAll(rule, paid, rs).value)
  {
    if rs == [] {
      assert Pending(1.0, paid, false, []) in ReactAll(rule, paid, rs).value;
      return;
    }
    var front, r := rs[..|rs| - 1], rs[|rs| - 1];
    ReactAllIff(rule, fit, paid, front);
    DeliverableStep(rs);
    ReactStep(rule, paid, rs);
    assert Deliverable(r) <==> HitOf(r).Ok? && r.profile.Some?;
    hide ReactAll, Standing, StaysFit, HitOf, Deliverable, AllDeliverable, Obliging;
    if ReactAll(rule, paid, front).Ok? && HitOf(r).Ok? {
      assert Obliging(Striker(rule, r, HitOf(r).value), fit, r);
      StrikeAllStands(fit, Striker(rule, r, HitOf(r).value), r, ReactAll(rule, paid, front).value);
    }
  }

  /** An unfit mover stops at the first reaction. */
  lemma {:induction false} ReactNone(rule: StrikeRule, fit: Mover -> bool, paid: Mover, rs: seq<Reaction>)
    requires AllObliging(rule, fit) && paid.alive && !fit(paid) && rs != []
    ensures ReactAll(rule, paid, rs).Err?
  {
    var front, r := rs[..|rs| - 1], rs[|rs| - 1];
    ReactStep(rule, paid, rs);
    if front != [] {
      ReactNone(rule, fit, paid, front);
    } else if HitOf(r).Ok? {
      assert Obliging(Striker(rule, r, HitOf(r).value), fit, r);
      assert [Pending(1.0, paid, false, [])][0] in ReactAll(rule, paid, front).value;
      StrikeAllIff(Striker(rule, r, HitOf(r).value), r, ReactAll(rule, paid, front).value);
    }
  }

  function FitFor(playerLegal: bool): Mover -> bool {
    (m: Mover) => Evaluable(playerLegal, m)
  }

  lemma OrdinaryObliging(playerLegal: bool)
    ensures AllObliging(OrdinaryAttacks(playerLegal), FitFor(playerLegal)) && StaysFit(FitFor(playerLegal))
  {
    var rule := OrdinaryAttacks(playerLegal);
    forall r: Reaction, hit: int ensures Obliging(Striker(rule, r, hit), FitFor(playerLegal), r) {
      forall m: Mover
        ensures Striker(rule, r, hit)(m).Ok? <==> r.profile.Some? && FitFor(playerLegal)(m)
        ensures Striker(rule, r, hit)(m).Ok? ==> SparesSomebody(Striker(rule, r, hit)(m).value)
      {
        StrikeIff(playerLegal, r, hit, m);
      }
    }
    hide Strike, SparesSomebody;
  }

  // ----- The move -----

  /**
   * A living mover's move under ordinary attacks is carried out exactly if its reactions are well placed and
   * deliverable, the mover can be struck at wherever there are any, and the costs can be paid.
   */
  lemma MoveSucceedsIff(playerLegal: bool, scene: Scene, m: Mover, action: MoveAction)
    requires scene.rule == OrdinaryAttacks(playerLegal) && m.alive
    ensures MoveOutcome(scene, m, action).Ok?
            <==> && ReactionsPlaced(scene, m, action) && AllDeliverable(action.reactions)
                 && (action.reactions == [] || Evaluable(playerLegal, m))
                 && Affordable(m, action)
  {
    var sorted := InReactorOrder(action.reactions);
    PlacedIff(scene, m, action);
    SameDeliverable(action.reactions);
    if WithCosts(m, action).Ok? {
      OrdinaryObliging(playerLegal);
      if Evaluable(playerLegal, m) {
        ReactAllIff(scene.rule, FitFor(playerLegal), WithCosts(m, action).value, sorted);
      } else if sorted != [] {
        ReactNone(scene.rule, FitFor(playerLegal), WithCosts(m, action).value, sorted);
      }
    }
    hide ReactAll, ReactionsPlaced, AllDeliverable, InReactorOrder, FirstRefusal, AllObliging, StaysFit;
  }

  /**
   * Where every tile left is mapped, a move is invalid, rather than not supported, exactly if its reactions are
   * well placed and its costs cannot be paid.
   */
  lemma InvalidIff(playerLegal: bool, scene: Scene, m: Mover, action: MoveAction)
    requires scene.rule == OrdinaryAttacks(playerLegal) && OnTheMap(scene, m, action)
    ensures MoveOutcome(scene, m, action) == Err(Invalid)
            <==> ReactionsPlaced(scene, m, action) && !Affordable(m, action)
  {
    PlacedIff(scene, m, action);
    MappedIsNotInvalid(scene, m, action, |action.reactions|);
    if WithCosts(m, action).Ok? {
      ReactionsUnsupported(playerLegal, WithCosts(m, action).value, InReactorOrder(action.reactions));
    }
    hide ReactAll, ReactionsPlaced, InReactorOrder, FirstRefusal;
  }

  lemma {:induction false} ReactionsUnsupported(playerLegal: bool, paid: Mover, rs: seq<Reaction>)
    ensures ReactAll(OrdinaryAttacks(playerLegal), paid, rs) != Err(Invalid)
  {
    if rs != [] {
      var before, r := ReactAll(OrdinaryAttacks(playerLegal), paid, rs[..|rs| - 1]), rs[|rs| - 1];
      ReactionsUnsupported(playerLegal, paid, rs[..|rs| - 1]);
      if before.Ok? && HitOf(r).Ok? {
        StrikesUnsupported(playerLegal, r, HitOf(r).value, before.value);
      }
    }
  }

  lemma {:induction false} StrikesUnsupported(playerLegal: bool, r: Reaction, hit: int, ps: seq<Pending>)
    ensures StrikeAll(Striker(OrdinaryAttacks(playerLegal), r, hit), r, ps) != Err(Invalid)
  {
    if ps != [] {
      StrikesUnsupported(playerLegal, r, hit, ps[..|ps| - 1]);
      StrikeUnsupported(playerLegal, r, hit, ps[|ps| - 1].mover);
    }
    hide Strike;
  }

  lemma StrikeUnsupported(playerLegal: bool, r: Reaction, hit: int, m: Mover)
    ensures Strike(playerLegal, r, hit, m) != Err(Invalid)
  {
    hide Outcome;
  }

  lemma SameDeliverable(rs: seq<Reaction>)
    ensures |InReactorOrder(rs)| == |rs|
    ensures AllDeliverable(InReactorOrder(rs)) <==> AllDeliverable(rs)
  {
    Sorting.SortMembers(ByReactor, rs);
    Sorting.MembersAgree(InReactorOrder(rs), rs);
    hide Deliverable, AllDeliverable, InReactorOrder;
    EachDeliverable(rs);
    EachDeliverable(InReactorOrder(rs));
  }

  lemma EachDeliverable(rs: seq<Reaction>)
    ensures AllDeliverable(rs) <==> forall r :: r in rs ==> Deliverable(r)
  {
    hide Deliverable;
    if forall r :: r in rs ==> Deliverable(r) {
      forall i | 0 <= i < |rs| ensures Deliverable(rs[i]) {
        assert rs[i] in rs;
      }
    }
  }
}
