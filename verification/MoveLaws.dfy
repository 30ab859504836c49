/** Laws of whole moves, and of the risk features read off them. */
module MoveLaws {
  import opened Common
  import opened Reals
  import opened AttackOutcomes
  import opened DamageMonotone
  import opened Reactions
  import opened ReactionHealth
  import opened ReactionLaws
  import opened Sums
  import Ordering
  import Sorting

  // ----- Reading features off the branches -----

  function BranchChance(b: TransitionBranch): real {
    b.probability
  }

  function CompletedChance(b: TransitionBranch): real {
    if b.completed then b.probability else 0.0
  }

  function InterruptedChance(b: TransitionBranch): real {
    if b.interrupted then b.probability else 0.0
  }

  function DeathChance(b: TransitionBranch): real {
    if !b.mover.alive then b.probability else 0.0
  }

  function SurvivalChance(b: TransitionBranch): real {
    if b.mover.alive then b.probability else 0.0
  }

  function HpLoss(startingHp: int, b: TransitionBranch): int
    requires b.mover.hp.Exact?
  {
    Max(0, startingHp - b.mover.hp.value)
  }

  function ExpectedLoss(startingHp: int): TransitionBranch -> real {
    (b: TransitionBranch) => if b.mover.hp.Exact? then Times(b.probability, HpLoss(startingHp, b) as real) else 0.0
  }

  datatype FriendlyHarm = FriendlyHarm(
    minimumDamage: int, maximumDamage: int, expectedDamage: real, death: real, interruption: real)

  function Least(xs: seq<int>): (r: int)
    requires xs != []
    ensures r in xs && forall x :: x in xs ==> r <= x
  {
    if |xs| == 1 then xs[0]
    else
      assert forall x :: x in xs ==> x in xs[..|xs| - 1] || x == xs[|xs| - 1];
      var front := Least(xs[..|xs| - 1]);
      if xs[|xs| - 1] < front then xs[|xs| - 1] else front
  }

  function Greatest(xs: seq<int>): (r: int)
    requires xs != []
    ensures r in xs && forall x :: x in xs ==> x <= r
  {
    if |xs| == 1 then xs[0]
    else
      assert forall x :: x in xs ==> x in xs[..|xs| - 1] || x == xs[|xs| - 1];
      var front := Greatest(xs[..|xs| - 1]);
      if xs[|xs| - 1] > front then xs[|xs| - 1] else front
  }

  /** `losses` are the HP losses of the branches, one by one. */
  ghost predicate LossesOf(startingHp: int, branches: seq<TransitionBranch>, losses: seq<int>) {
    |losses| == |branches| && forall i :: 0 <= i < |branches| ==>
      branches[i].mover.hp.Exact? && losses[i] == HpLoss(startingHp, branches[i])
  }

  /** The harm features of a move with reactions; refused unless every ending HP is exact. */
  method ReadFriendlyHarm(startingHp: int, branches: seq<TransitionBranch>)
    returns (r: Result<FriendlyHarm, Refusal>, ghost losses: seq<int>)
    requires branches != []
    ensures r.Err? <==> exists b :: b in branches && !b.mover.hp.Exact?
    ensures r.Ok? ==>
              && r.value.death == Sum(branches, DeathChance)
              && r.value.interruption == Sum(branches, InterruptedChance)
              && r.value.expectedDamage == Sum(branches, ExpectedLoss(startingHp))
              && LossesOf(startingHp, branches, losses)
              && r.value.minimumDamage in losses && r.value.maximumDamage in losses
              && forall x :: x in losses ==> r.value.minimumDamage <= x <= r.value.maximumDamage
  {
    var damage: seq<int> := [];
    var expected, death, interruption := 0.0, 0.0, 0.0;
    for i := 0 to |branches|
      invariant LossesOf(startingHp, branches[..i], damage)
      invariant death == Sum(branches[..i], DeathChance)
      invariant interruption == Sum(branches[..i], InterruptedChance)
      invariant expected == Sum(branches[..i], ExpectedLoss(startingHp))
    {
      assert branches[..i + 1][..i] == branches[..i];
      var b := branches[i];
      if !b.mover.hp.Exact? {
        return Err(Unsupported), [];
      }
      damage := damage + [HpLoss(startingHp, b)];
      expected := expected + Times(b.probability, HpLoss(startingHp, b) as real);
      if !b.mover.alive {
        death := death + b.probability;
      }
      if b.interrupted {
        interruption := interruption + b.probability;
      }
    }
    assert branches[..|branches|] == branches;
    losses := damage;
    r := Ok(FriendlyHarm(Least(damage), Greatest(damage), expected, death, interruption));
  }

  function MovementCompletion(branches: seq<TransitionBranch>): real {
    Sum(branches, CompletedChance)
  }

  // ----- Where a branch comes from -----

  /** A branch of a move with reactions is one finished pending branch of the paid mover. */
  lemma BranchOrigin(scene: Scene, m: Mover, action: MoveAction, b: TransitionBranch) returns (paid: Mover, q: Pending)
    requires MoveOutcome(scene, m, action).Ok? && b in MoveOutcome(scene, m, action).value
    requires action.reactions != []
    ensures WithCosts(m, action) == Ok(paid) && m.position.Some?
    ensures ReactAll(scene.rule, paid, InReactorOrder(action.reactions)).Ok?
    ensures q in ReactAll(scene.rule, paid, InReactorOrder(action.reactions)).value
    ensures b == Finish(q, m.position.value, action.destination)
  {
    paid := Attempt(scene, m, action).value;
    q := FinishedMember(ReactAll(scene.rule, paid, InReactorOrder(action.reactions)).value,
                        m.position.value, action.destination, b);
  }

  lemma FinishedMember(ps: seq<Pending>, origin: string, destination: string, b: TransitionBranch) returns (q: Pending)
    requires b in FinishAll(ps, origin, destination)
    ensures q in ps && b == Finish(q, origin, destination)
  {
    var bs := FinishAll(ps, origin, destination);
    var i :| 0 <= i < |bs| && bs[i] == b;
    q := ps[i];
  }

  /** A move without reactions has the one branch that completes. */
  lemma UnopposedBranch(scene: Scene, m: Mover, action: MoveAction)
    requires MoveOutcome(scene, m, action).Ok? && action.reactions == []
    ensures var paid := WithCosts(m, action);
            && paid.Ok?
            && MoveOutcome(scene, m, action).value
               == [TransitionBranch(
                     1.0, true, false, paid.value.(position := Some(action.destination)), action.destination, [])]
  {
  }

  // ----- Probability -----

  predicate Orderlies(rs: seq<Reaction>) {
    forall i :: 0 <= i < |rs| ==> Orderly(rs[i])
  }

  lemma SortedMember(rs: seq<Reaction>, r: Reaction)
    ensures r in InReactorOrder(rs) <==> r in rs
  {
    Sorting.SortMembers(ByReactor, rs);
    assert r in InReactorOrder(rs) <==> r in multiset(InReactorOrder(rs));
    assert r in rs <==> r in multiset(rs);
  }

  lemma SortedOrderly(rs: seq<Reaction>)
    requires Orderlies(rs)
    ensures forall r :: r in InReactorOrder(rs) ==> Orderly(r)
  {
    forall r | r in InReactorOrder(rs) ensures Orderly(r) {
      SortedMember(rs, r);
    }
  }

  lemma {:induction false} InsertKeepsAllMiss(rs: seq<Reaction>, r: Reaction)
    ensures AllMiss(Sorting.InsertBy(ByReactor, rs, r)) == Times(AllMiss(rs), MissChance(r))
  {
    if rs != [] && ByReactor(r, rs[|rs| - 1]) {
      var front, last := rs[..|rs| - 1], rs[|rs| - 1];
      InsertKeepsAllMiss(front, r);
      AllMissSnoc(Sorting.InsertBy(ByReactor, front, r), last);
      SwapFactors(AllMiss(front), MissChance(r), MissChance(last));
    } else {
      AllMissSnoc(rs, r);
    }
  }

  lemma AllMissSnoc(rs: seq<Reaction>, r: Reaction)
    ensures AllMiss(rs + [r]) == Times(AllMiss(rs), MissChance(r))
  {
    assert (rs + [r])[..|rs|] == rs;
  }

  lemma {:induction false} SortKeepsAllMiss(rs: seq<Reaction>)
    ensures AllMiss(InReactorOrder(rs)) == AllMiss(rs)
  {
    if rs != [] {
      SortKeepsAllMiss(rs[..|rs| - 1]);
      InsertKeepsAllMiss(InReactorOrder(rs[..|rs| - 1]), rs[|rs| - 1]);
    }
  }

  lemma FinishedSums(ps: seq<Pending>, origin: string, destination: string)
    ensures var bs := FinishAll(ps, origin, destination);
            && Sum(bs, BranchChance) == Sum(ps, Chance)
            && Sum(bs, CompletedChance) == Sum(ps, ClearChance)
  {
    var bs := FinishAll(ps, origin, destination);
    SumMatches(bs, BranchChance, ps, Chance);
    SumMatches(bs, CompletedChance, ps, ClearChance);
  }

  /**
   * For any supplied reactions: the branches carry probability exactly 1, the move completes with the
   * product of the miss chances, and it is interrupted with the complement.
   */
  lemma MoveProbabilities(scene: Scene, m: Mover, action: MoveAction)
    requires Conserving(scene.rule, KnownSoundly)
    requires MoveOutcome(scene, m, action).Ok? && KnownSoundly(m) && m.alive && Orderlies(action.reactions)
    ensures var branches := MoveOutcome(scene, m, action).value;
            && Sum(branches, BranchChance) == 1.0
            && MovementCompletion(branches) == AllMiss(action.reactions)
            && Sum(branches, InterruptedChance) == 1.0 - AllMiss(action.reactions)
  {
    var branches := MoveOutcome(scene, m, action).value;
    if action.reactions == [] {
      SumOne(branches[0], BranchChance);
      SumOne(branches[0], CompletedChance);
    } else {
      var sorted := InReactorOrder(action.reactions);
      SortedOrderly(action.reactions);
      var paid := WithCosts(m, action).value;
      ReactAllSums(scene.rule, KnownSoundly, paid, sorted);
      SortKeepsAllMiss(action.reactions);
      FinishedSums(ReactAll(scene.rule, paid, sorted).value, m.position.value, action.destination);
    }
    Exclusive(scene, m, action);
    SumSplits(branches, BranchChance, CompletedChance, InterruptedChance);
  }

  /** Every branch is either completed or interrupted. */
  lemma Exclusive(scene: Scene, m: Mover, action: MoveAction)
    requires MoveOutcome(scene, m, action).Ok?
    ensures forall b :: b in MoveOutcome(scene, m, action).value ==> b.completed == !b.interrupted
  {
  }

  // ----- Single branches -----

  /** A dead mover's branch is that of a pending branch whose last effect killed it. */
  ghost predicate DiedInMove(scene: Scene, m: Mover, action: MoveAction, b: TransitionBranch) {
    && WithCosts(m, action).Ok? && m.position.Some?
    && exists q, p, o ::
         && DiedOf(scene.rule, WithCosts(m, action).value, InReactorOrder(action.reactions), q, p, o)
         && b == Finish(q, m.position.value, action.destination)
  }

  /**
   * The story of a branch: costs are paid exactly once; the reactions are recorded in reactor order, all
   * of them unless the mover dies, and then the last one is what killed it; the branch completes, at the
   * destination, exactly when every reaction missed.
   */
  ghost predicate Journeyed(scene: Scene, m: Mover, action: MoveAction, b: TransitionBranch) {
    && PaidOnce(m, action, b)
    && (b.completed <==> EveryoneMissed(b.effects))
    && (b.completed ==> b.mover.alive && b.tile == action.destination)
    && (!b.completed ==> m.position == Some(b.tile))
    && b.mover.position == Some(b.tile)
    && (b.mover.alive ==> |b.effects| == |action.reactions|)
    && (!b.mover.alive ==> b.effects != [] && !Missed(b.effects[|b.effects| - 1]) && DiedInMove(scene, m, action, b))
    && InOrder(action.reactions, b.effects)
  }

  /**
   * Exactly known hit points and armour are what the recorded hits leave, and the mover lives exactly as
   * long as it has hit points.
   */
  ghost predicate Harmed(scene: Scene, m: Mover, b: TransitionBranch) {
    && (Mortal(scene.rule) && m.hp.Exact? && m.hp.value > 0 ==> Bled(m.hp.value, b.mover, b.effects))
    && (Local(scene.rule) && m.head.Exact? && m.body.Exact? ==>
          Dented(m.head.value, m.body.value, b.mover, b.effects))
  }

  /** Where a branch went, what it paid and met, and what that did to the mover. */
  ghost predicate Told(scene: Scene, m: Mover, action: MoveAction, b: TransitionBranch) {
    Journeyed(scene, m, action, b) && Harmed(scene, m, b)
  }

  lemma BranchStory(scene: Scene, m: Mover, action: MoveAction, b: TransitionBranch)
    requires Sparing(scene.rule)
    requires MoveOutcome(scene, m, action).Ok? && b in MoveOutcome(scene, m, action).value && m.alive
    ensures Told(scene, m, action, b)
  {
    hide Journeyed, Harmed, MoveOutcome, Sparing;
    BranchJourney(scene, m, action, b);
    BranchHarm(scene, m, action, b);
  }

  lemma BranchHarm(scene: Scene, m: Mover, action: MoveAction, b: TransitionBranch)
    requires MoveOutcome(scene, m, action).Ok? && b in MoveOutcome(scene, m, action).value && m.alive
    ensures Harmed(scene, m, b)
  {
    if action.reactions == [] {
      UnopposedBranch(scene, m, action);
    } else {
      var paid, q := BranchOrigin(scene, m, action, b);
      HarmFinishes(scene.rule, paid, InReactorOrder(action.reactions), q);
      hide ReactAll, Mortal, Local, InReactorOrder, MoveOutcome;
    }
  }

  lemma HarmFinishes(rule: StrikeRule, paid: Mover, rs: seq<Reaction>, q: Pending)
    requires ReactAll(rule, paid, rs).Ok? && q in ReactAll(rule, paid, rs).value && paid.alive
    ensures Mortal(rule) && paid.hp.Exact? && paid.hp.value > 0 ==> Bled(paid.hp.value, q.mover, q.effects)
    ensures Local(rule) && paid.head.Exact? && paid.body.Exact? ==>
              Dented(paid.head.value, paid.body.value, q.mover, q.effects)
  {
    hide Mortal, Local, ReactAll, Bled, Dented;
    if Mortal(rule) && paid.hp.Exact? && paid.hp.value > 0 {
      ReactAllBleeds(rule, paid, rs, q);
    }
    if Local(rule) && paid.head.Exact? && paid.body.Exact? {
      ReactAllDents(rule, paid, rs, q);
    }
  }

  lemma BranchJourney(scene: Scene, m: Mover, action: MoveAction, b: TransitionBranch)
    requires Sparing(scene.rule)
    requires MoveOutcome(scene, m, action).Ok? && b in MoveOutcome(scene, m, action).value && m.alive
    ensures Journeyed(scene, m, action, b)
  {
    if action.reactions == [] {
      UnopposedBranch(scene, m, action);
    } else {
      var paid, q := BranchOrigin(scene, m, action, b);
      Sorting.SortMembers(ByReactor, action.reactions);
      ReactAllStory(scene.rule, paid, InReactorOrder(action.reactions), q);
      if !q.mover.alive {
        var p, o := DeathIsFinal(scene.rule, paid, InReactorOrder(action.reactions), q);
      }
    }
  }

  predicate PaidOnce(m: Mover, action: MoveAction, b: TransitionBranch) {
    && action.apCost.Some? && b.mover.ap == m.ap - action.apCost.value
    && action.fatigueCost.Some? && b.mover.fatigue == m.fatigue + action.fatigueCost.value
  }

  /** The effects name the reactors in identifier order, from the first on. */
  predicate InOrder(rs: seq<Reaction>, es: seq<Aoo>) {
    var sorted := InReactorOrder(rs);
    |es| <= |sorted| && forall i :: 0 <= i < |es| ==> es[i].reactorId == sorted[i].reactorId
  }

  /** No profile among the reactions has a negative number in it. */
  predicate NonnegativeProfiles(rs: seq<Reaction>) {
    forall r :: r in rs && r.profile.Some? ==> Nonnegative(r.profile.value)
  }

  /** Whatever is known of the mover: on no branch can it have more hit points or armour than it may have had. */
  lemma NobodyIsHealed(scene: Scene, m: Mover, action: MoveAction, b: TransitionBranch, t: Target)
    requires Wounding(scene.rule) && NonnegativeProfiles(action.reactions)
    requires MoveOutcome(scene, m, action).Ok? && b in MoveOutcome(scene, m, action).value
    requires AtMost(m, t)
    ensures AtMost(b.mover, t)
  {
    if action.reactions == [] {
      UnopposedBranch(scene, m, action);
    } else {
      var paid, q := BranchOrigin(scene, m, action, b);
      forall r | r in InReactorOrder(action.reactions) && r.profile.Some? ensures Nonnegative(r.profile.value) {
        SortedMember(action.reactions, r);
      }
      ReactAllDeclines(scene.rule, paid, InReactorOrder(action.reactions), q, t);
    }
  }

  // ----- The order in which reactions are supplied -----

  /** On a one-step path, acceptable reactions have different reactors. */
  lemma DistinctReactors(scene: Scene, m: Mover, action: MoveAction, i: int, j: int)
    requires GeometryOk(scene, m, action) && |action.path| == 1
    requires 0 <= i < j < |action.reactions|
    ensures action.reactions[i].reactorId != action.reactions[j].reactorId
  {
    OneStep(action.path, action.reactions[i].pathStep);
    OneStep(action.path, action.reactions[j].pathStep);
    assert Objection(scene, m, action, action.reactions[i]).None?;
    assert Objection(scene, m, action, action.reactions[j]).None?;
    assert Identity(action.reactions[i]) != Identity(action.reactions[j]);
  }

  lemma OneStep(path: seq<string>, step: string)
    requires |path| == 1
    ensures |Matches(path, step)| == 1 ==> step == path[0]
  {
    assert path[..0] == [] && Matches(path[..0], step) == [];
  }

  ghost predicate DifferentReactors(rs: seq<Reaction>) {
    forall i, j :: 0 <= i < j < |rs| ==> rs[i].reactorId != rs[j].reactorId
  }

  lemma ReactorsOrdered(rs: seq<Reaction>)
    requires DifferentReactors(rs)
    ensures Sorting.Distinct(rs) && Sorting.TotalOn(ByReactor, multiset(rs))
  {
    forall a, b | a in multiset(rs) && b in multiset(rs)
      ensures a == b || ByReactor(a, b) || ByReactor(b, a)
      ensures !(ByReactor(a, b) && ByReactor(b, a))
    {
      var i :| 0 <= i < |rs| && rs[i] == a;
      var j :| 0 <= j < |rs| && rs[j] == b;
      Ordering.LexTotal(a.reactorId, b.reactorId);
    }
    forall a, b, c | ByReactor(a, b) && ByReactor(b, c) ensures ByReactor(a, c) {
      Ordering.LexTransitive(a.reactorId, b.reactorId, c.reactorId);
    }
  }

  /** Reordering the supplied reactions keeps their geometry acceptable. */
  lemma GeometryPermutes(scene: Scene, m: Mover, action: MoveAction, rs: seq<Reaction>)
    requires GeometryOk(scene, m, action) && multiset(rs) == multiset(action.reactions)
    ensures GeometryOk(scene, m, action.(reactions := rs))
  {
    var xs := action.reactions;
    assert Sorting.Distinct(xs);
    Sorting.DistinctPermutes(xs, rs);
    forall i | 0 <= i < |rs| ensures rs[i] in xs {
      assert rs[i] in multiset(rs);
    }
    forall i, j | 0 <= i < j < |rs| ensures Identity(rs[i]) != Identity(rs[j]) {
      var k :| 0 <= k < |xs| && xs[k] == rs[i];
      var l :| 0 <= l < |xs| && xs[l] == rs[j];
      assert k != l;
    }
    forall i | 0 <= i < |rs| ensures Objection(scene, m, action.(reactions := rs), rs[i]).None? {
      var k :| 0 <= k < |xs| && xs[k] == rs[i];
      assert Objection(scene, m, action, xs[k]).None?;
    }
  }

  /** On a one-step path, acceptable reactions are dealt with in the same order however they are listed. */
  lemma ReactorOrderPermutes(scene: Scene, m: Mover, action: MoveAction, rs: seq<Reaction>)
    requires GeometryOk(scene, m, action) && |action.path| == 1 && multiset(rs) == multiset(action.reactions)
    ensures InReactorOrder(rs) == InReactorOrder(action.reactions)
  {
    forall i, j | 0 <= i < j < |action.reactions|
      ensures action.reactions[i].reactorId != action.reactions[j].reactorId
    {
      DistinctReactors(scene, m, action, i, j);
    }
    ReactorsOrdered(action.reactions);
    Sorting.DistinctPermutes(action.reactions, rs);
    Sorting.SortForgetsOrder(ByReactor, action.reactions, rs);
  }

  /** The mover's tile and every tile of the path are on the map, as in every validated state. */
  predicate OnTheMap(scene: Scene, m: Mover, action: MoveAction) {
    && (m.position.Some? ==> m.position.value in scene.neighbors)
    && forall i :: 0 <= i < |action.path| ==> action.path[i] in scene.neighbors
  }

  lemma {:induction false} MatchesAreIndices(path: seq<string>, step: string)
    ensures forall k :: k in Matches(path, step) ==> k < |path|
  {
    if path != [] {
      MatchesAreIndices(path[..|path| - 1], step);
    }
  }

  /** On the map, every objection is the same refusal. */
  lemma {:induction false} MappedRefusals(scene: Scene, m: Mover, action: MoveAction, n: nat)
    requires OnTheMap(scene, m, action) && n <= |action.reactions|
    ensures FirstRefusal(scene, m, action, n) in {None, Some(Unsupported)}
  {
    if n > 0 {
      MappedRefusals(scene, m, action, n - 1);
      var r := action.reactions[n - 1];
      MatchesAreIndices(action.path, r.pathStep);
      var matches := Matches(action.path, r.pathStep);
      assert matches != [] ==> matches[0] in matches;
    }
  }

  /**
   * However the reactions are listed, the move succeeds or is refused alike, with the same branches;
   * on the map the refusal is the same, too.
   */
  lemma MoveForgetsOrder(scene: Scene, m: Mover, action: MoveAction, rs: seq<Reaction>)
    requires multiset(rs) == multiset(action.reactions)
    ensures var other := MoveOutcome(scene, m, action.(reactions := rs));
            && (other.Ok? <==> MoveOutcome(scene, m, action).Ok?)
            && (other.Ok? ==> other == MoveOutcome(scene, m, action))
            && (OnTheMap(scene, m, action) ==> other == MoveOutcome(scene, m, action))
  {
    var other := action.(reactions := rs);
    if GeometryOk(scene, m, action) {
      OutcomePermutes(scene, m, action, rs);
    } else if GeometryOk(scene, m, other) {
      OutcomePermutes(scene, m, other, action.reactions);
    } else {
      RefusedIffNotOk(scene, m, action, |action.reactions|);
      RefusedIffNotOk(scene, m, other, |rs|);
      if OnTheMap(scene, m, action) {
        MappedRefusals(scene, m, action, |action.reactions|);
        MappedRefusals(scene, m, other, |rs|);
      }
    }
  }

  /** Once the geometry is accepted, nothing that follows looks at the order of supply. */
  lemma OutcomePermutes(scene: Scene, m: Mover, action: MoveAction, rs: seq<Reaction>)
    requires multiset(rs) == multiset(action.reactions) && GeometryOk(scene, m, action)
    ensures MoveOutcome(scene, m, action.(reactions := rs)) == MoveOutcome(scene, m, action)
  {
    GeometryPermutes(scene, m, action, rs);
    RefusedIffNotOk(scene, m, action, |action.reactions|);
    RefusedIffNotOk(scene, m, action.(reactions := rs), |rs|);
    assert |multiset(rs)| == |rs| && |multiset(action.reactions)| == |action.reactions|;
    if action.reactions != [] && |action.path| == 1 {
      ReactorOrderPermutes(scene, m, action, rs);
    }
  }

  // ----- What can still act afterwards -----

  function Survivors(branches: seq<TransitionBranch>): seq<TransitionBranch> {
    if branches == [] then []
    else
      var front, last := Survivors(branches[..|branches| - 1]), branches[|branches| - 1];
      if last.mover.alive then front + [last] else front
  }

  function Rescale(bs: seq<TransitionBranch>, total: real): seq<TransitionBranch>
    requires total != 0.0
  {
    if bs == [] then []
    else
      var b := bs[|bs| - 1];
      Rescale(bs[..|bs| - 1], total) + [b.(probability := b.probability / total)]
  }

  /** The surviving branches, rescaled by what they weigh; None where the source would divide by zero. */
  function PostureBranches(branches: seq<TransitionBranch>): Option<seq<TransitionBranch>> {
    var survivors := Survivors(branches);
    var total := Sum(survivors, BranchChance);
    if survivors == [] then Some([])
    else if total == 0.0 then None
    else Some(Rescale(survivors, total))
  }

  lemma {:induction false} SurvivorSum(branches: seq<TransitionBranch>)
    ensures Sum(Survivors(branches), BranchChance) == Sum(branches, SurvivalChance)
  {
    if branches != [] {
      SurvivorSum(branches[..|branches| - 1]);
      SumAppend(Survivors(branches[..|branches| - 1]), [branches[|branches| - 1]], BranchChance);
      SumOne(branches[|branches| - 1], BranchChance);
    }
  }

  lemma {:induction false} RescaledSum(bs: seq<TransitionBranch>, total: real)
    requires total != 0.0
    ensures Sum(Rescale(bs, total), BranchChance) == Sum(bs, BranchChance) / total
  {
    if bs != [] {
      var front, b := bs[..|bs| - 1], bs[|bs| - 1];
      RescaledSum(front, total);
      SumAppend(Rescale(front, total), [b.(probability := b.probability / total)], BranchChance);
      SumOne(b.(probability := b.probability / total), BranchChance);
      AddQuotients(Sum(front, BranchChance), b.probability, total);
    }
  }

  lemma {:induction false} AllMissPositive(rs: seq<Reaction>)
    requires forall i :: 0 <= i < |rs| ==> HitOf(rs[i]).Ok?
    ensures AllMiss(rs) > 0.0
  {
    if rs != [] {
      AllMissPositive(rs[..|rs| - 1]);
      assert HitOf(rs[|rs| - 1]).Ok?;
      ProductPositive(AllMiss(rs[..|rs| - 1]), MissChance(rs[|rs| - 1]));
    }
  }

  lemma {:induction false} ReactedHits(rule: StrikeRule, paid: Mover, rs: seq<Reaction>)
    requires ReactAll(rule, paid, rs).Ok?
    ensures forall i :: 0 <= i < |rs| ==> HitOf(rs[i]).Ok?
  {
    if rs != [] {
      ReactedHits(rule, paid, rs[..|rs| - 1]);
      assert forall i :: 0 <= i < |rs| - 1 ==> rs[i] == rs[..|rs| - 1][i];
    }
  }

  /**
   * A living mover never loses all its futures: the survivors weigh at least the chance that all
   * reactions miss, which is positive, so the division is defined and the survivors are rescaled to 1.
   */
  lemma PostureIsNormalised(scene: Scene, m: Mover, action: MoveAction)
    requires Sparing(scene.rule) && Conserving(scene.rule, KnownSoundly) && Chancy(scene.rule, KnownSoundly)
    requires MoveOutcome(scene, m, action).Ok? && KnownSoundly(m) && m.alive && Orderlies(action.reactions)
    ensures var branches := MoveOutcome(scene, m, action).value;
            var posture := PostureBranches(branches);
            && 0.0 < AllMiss(action.reactions) <= Sum(branches, SurvivalChance)
            && posture.Some? && Sum(posture.value, BranchChance) == 1.0
  {
    var branches := MoveOutcome(scene, m, action).value;
    MoveProbabilities(scene, m, action);
    MissIsPossible(scene, m, action);
    forall b | b in branches ensures CompletedChance(b) <= SurvivalChance(b) {
      BranchStory(scene, m, action, b);
      BranchNonnegative(scene, m, action, b);
    }
    SumOrdered(branches, CompletedChance, SurvivalChance);
    Normalises(branches);
  }

  /** A set of branches whose survivors weigh something is rescaled to total probability 1. */
  lemma Normalises(branches: seq<TransitionBranch>)
    requires Sum(branches, SurvivalChance) > 0.0
    ensures PostureBranches(branches).Some? && Sum(PostureBranches(branches).value, BranchChance) == 1.0
  {
    var total := Sum(Survivors(branches), BranchChance);
    SurvivorSum(branches);
    RescaledSum(Survivors(branches), total);
    SelfQuotient(total);
  }

  lemma MissIsPossible(scene: Scene, m: Mover, action: MoveAction)
    requires MoveOutcome(scene, m, action).Ok?
    ensures AllMiss(action.reactions) > 0.0
  {
    if action.reactions != [] {
      ReactedHits(scene.rule, WithCosts(m, action).value, InReactorOrder(action.reactions));
      AllMissPositive(InReactorOrder(action.reactions));
      SortKeepsAllMiss(action.reactions);
    }
  }

  /** No branch has a negative probability. */
  lemma BranchNonnegative(scene: Scene, m: Mover, action: MoveAction, b: TransitionBranch)
    requires Conserving(scene.rule, KnownSoundly) && Chancy(scene.rule, KnownSoundly)
    requires MoveOutcome(scene, m, action).Ok? && b in MoveOutcome(scene, m, action).value
    requires KnownSoundly(m) && m.alive && Orderlies(action.reactions)
    ensures b.probability >= 0.0
  {
    if action.reactions == [] {
      UnopposedBranch(scene, m, action);
    } else {
      var paid, q := BranchOrigin(scene, m, action, b);
      SortedOrderly(action.reactions);
      ReactAllLikely(scene.rule, KnownSoundly, paid, InReactorOrder(action.reactions));
    }
  }

  /** What counts as lost is what the branch records, as far as there was so much to lose. */
  lemma LossIsRecorded(hp: int, b: TransitionBranch)
    requires hp >= 0 && Bled(hp, b.mover, b.effects)
    ensures HpLoss(hp, b) == if Lost(b.effects) < 0 then 0 else if Lost(b.effects) < hp then Lost(b.effects) else hp
  {
  }

  // ----- Ordinary attacks of opportunity -----

  /** Exact hit points and armour are what the recorded hits leave, and what is recorded counts as lost. */
  ghost predicate Endured(m: Mover, b: TransitionBranch) {
    && (m.hp.Exact? && m.hp.value > 0 ==>
          && Bled(m.hp.value, b.mover, b.effects)
          && (0 <= Lost(b.effects) <= m.hp.value ==> HpLoss(m.hp.value, b) == Lost(b.effects)))
    && (m.head.Exact? && m.body.Exact? ==> Dented(m.head.value, m.body.value, b.mover, b.effects))
  }

  lemma OrdinaryHarm(playerLegal: bool, scene: Scene, m: Mover, action: MoveAction, b: TransitionBranch)
    requires scene.rule == OrdinaryAttacks(playerLegal) && Told(scene, m, action, b)
    ensures Endured(m, b)
  {
    OrdinaryMortal(playerLegal);
    OrdinaryLocal(playerLegal);
    if m.hp.Exact? && m.hp.value > 0 {
      LossIsRecorded(m.hp.value, b);
    }
    hide Journeyed, Bled, Dented, Lost, Mortal, Local;
  }

  /** The laws of moves, for reactions that are ordinary attacks under either information profile. */
  lemma OrdinaryMove(playerLegal: bool, scene: Scene, m: Mover, action: MoveAction)
    requires scene.rule == OrdinaryAttacks(playerLegal)
    requires MoveOutcome(scene, m, action).Ok? && KnownSoundly(m) && m.alive && Orderlies(action.reactions)
    ensures var branches := MoveOutcome(scene, m, action).value;
            && Sum(branches, BranchChance) == 1.0
            && MovementCompletion(branches) == AllMiss(action.reactions)
            && Sum(branches, InterruptedChance) == 1.0 - AllMiss(action.reactions)
            && PostureBranches(branches).Some? && Sum(PostureBranches(branches).value, BranchChance) == 1.0
            && (forall b :: b in branches ==> b.probability >= 0.0 && Told(scene, m, action, b) && Endured(m, b))
            && (NonnegativeProfiles(action.reactions) ==>
                  forall b, t :: b in branches && AtMost(m, t) ==> AtMost(b.mover, t))
    ensures forall rs :: multiset(rs) == multiset(action.reactions) ==>
              MoveOutcome(scene, m, action.(reactions := rs)) == MoveOutcome(scene, m, action)
  {
    OrdinaryAttacksObey(playerLegal);
    MoveProbabilities(scene, m, action);
    PostureIsNormalised(scene, m, action);
    var branches := MoveOutcome(scene, m, action).value;
    forall b | b in branches ensures b.probability >= 0.0 && Told(scene, m, action, b) && Endured(m, b) {
      BranchStory(scene, m, action, b);
      BranchNonnegative(scene, m, action, b);
      OrdinaryHarm(playerLegal, scene, m, action, b);
    }
    if NonnegativeProfiles(action.reactions) {
      forall b, t | b in branches && AtMost(m, t) ensures AtMost(b.mover, t) {
        NobodyIsHealed(scene, m, action, b, t);
      }
    }
    forall rs | multiset(rs) == multiset(action.reactions)
      ensures MoveOutcome(scene, m, action.(reactions := rs)) == MoveOutcome(scene, m, action)
    {
      MoveForgetsOrder(scene, m, action, rs);
    }
  }
}
