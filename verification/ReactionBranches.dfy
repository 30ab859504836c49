/** Where the pending branches come from: what each reaction makes of each of them, without the loops. */
module ReactionBranches {
  import opened Common
  import opened Reals
  import opened AttackOutcomes
  import opened AttackKnowledge
  import opened Reactions
  import opened ReactionLaws
  import opened MoveAdmission
  import opened MoveLaws
  import Ordering
  import Sorting

  /** `n` is `x` without its fraction. */
  predicate WithoutFraction(n: int, x: real) {
    if x >= 0.0 then n as real <= x < n as real + 1.0 else n as real - 1.0 < x <= n as real
  }

  /** What is known of a place's armour after `left` was left of it. */
  predicate LeftOf(k: Known, left: real) {
    k.Exact? && WithoutFraction(k.value, left)
  }

  /** The outcome `b` of reaction `r` makes `q` of the living branch `p`. */
  predicate Makes(p: Pending, r: Reaction, b: OutcomeBranch, q: Pending) {
    && q.probability == Times(p.probability, b.probability)
    && q.mover.hp == Exact(b.targetHp) && LeftOf(q.mover.head, b.targetHead) && LeftOf(q.mover.body, b.targetBody)
    && (q.mover.alive <==> p.mover.alive && !b.killed)
    && p.mover == q.mover.(hp := p.mover.hp, head := p.mover.head, body := p.mover.body, alive := p.mover.alive)
    && (q.interrupted <==> p.interrupted || b.result == Head || b.result == Body)
    && q.effects == p.effects + [Aoo(r.reactorId, b.result, b.hpDamage)]
  }

  lemma TruncDropsFraction(n: int, x: real)
    ensures WithoutFraction(n, x) <==> n == Trunc(x)
  {
  }

  lemma MakesIff(p: Pending, r: Reaction, b: OutcomeBranch, q: Pending)
    ensures Makes(p, r, b, q) <==> q == Next(p, r, b)
  {
    if q.mover.head.Exact? && q.mover.body.Exact? {
      TruncDropsFraction(q.mover.head.value, b.targetHead);
      TruncDropsFraction(q.mover.body.value, b.targetBody);
    }
    TruncDropsFraction(Trunc(b.targetHead), b.targetHead);
    TruncDropsFraction(Trunc(b.targetBody), b.targetBody);
    hide WithoutFraction, Trunc;
  }

  /** The dead are passed over, marked as interrupted; the living become what some outcome makes of them. */
  ghost predicate ComesOf(rule: StrikeRule, r: Reaction, p: Pending, q: Pending)
    requires r.hitChance.Some?
  {
    if p.mover.alive then
      && rule(r, r.hitChance.value, p.mover).Ok?
      && exists b :: b in rule(r, r.hitChance.value, p.mover).value && Makes(p, r, b, q)
    else q == p.(interrupted := true)
  }

  ghost predicate ComesOfSome(rule: StrikeRule, r: Reaction, ps: seq<Pending>, q: Pending)
    requires r.hitChance.Some?
  {
    exists p :: p in ps && ComesOf(rule, r, p, q)
  }

  lemma {:induction false} FollowHolds(p: Pending, r: Reaction, bs: seq<OutcomeBranch>, b: OutcomeBranch)
    requires b in bs
    ensures Next(p, r, b) in Follow(p, r, bs)
  {
    if b != bs[|bs| - 1] {
      FollowHolds(p, r, bs[..|bs| - 1], b);
    }
  }

  lemma ComesIsMade(rule: StrikeRule, r: Reaction, ps: seq<Pending>, q: Pending)
    requires HitOf(r).Ok? && StrikeAll(Striker(rule, r, r.hitChance.value), r, ps).Ok? && ComesOfSome(rule, r, ps, q)
    ensures q in StrikeAll(Striker(rule, r, r.hitChance.value), r, ps).value
  {
    var strike := Striker(rule, r, r.hitChance.value);
    var p :| p in ps && ComesOf(rule, r, p, q);
    StrikeAllFollows(strike, r, ps, p);
    if p.mover.alive {
      var b :| b in rule(r, r.hitChance.value, p.mover).value && Makes(p, r, b, q);
      MakesIff(p, r, b, q);
      FollowHolds(p, r, strike(p.mover).value, b);
      assert q in Struck(strike, r, p);
    } else {
      assert Struck(strike, r, p)[0] == q;
    }
    hide StrikeAll, Makes, Next, Follow;
  }

  /** After any reactions, the branches are exactly what the last one makes of those before it. */
  lemma ReactAllComes(rule: StrikeRule, paid: Mover, rs: seq<Reaction>, q: Pending)
    requires rs != [] && ReactAll(rule, paid, rs).Ok?
    ensures var r, before := rs[|rs| - 1], ReactAll(rule, paid, rs[..|rs| - 1]);
            && before.Ok? && r.hitChance.Some?
            && (q in ReactAll(rule, paid, rs).value <==> ComesOfSome(rule, r, before.value, q))
  {
    var r, before := rs[|rs| - 1], ReactAll(rule, paid, rs[..|rs| - 1]);
    ReactStep(rule, paid, rs);
    assert HitOf(r).value == r.hitChance.value;
    if q in ReactAll(rule, paid, rs).value {
      var p, b := ReactAllMember(rule, paid, rs, q);
      if p.mover.alive {
        MakesIff(p, r, b, q);
      }
      assert ComesOf(rule, r, p, q);
    } else if ComesOfSome(rule, r, before.value, q) {
      ComesIsMade(rule, r, before.value, q);
    }
    hide ReactAll, StrikeAll, Makes, Next;
  }

  /** Before any reaction there is one branch: the mover with its costs paid, nothing done to it yet. */
  lemma NoReactionsYet(rule: StrikeRule, paid: Mover)
    ensures ReactAll(rule, paid, []) == Ok([Pending(1.0, paid, false, [])])
  {
  }

  // ----- Who strikes first -----

  lemma ReactorsAscend(scene: Scene, m: Mover, action: MoveAction, i: nat, j: nat)
    requires GeometryOk(scene, m, action) && |action.path| == 1 && i < j < |action.reactions|
    ensures |InReactorOrder(action.reactions)| == |action.reactions|
    ensures var rs := InReactorOrder(action.reactions); Ordering.Earlier(rs[i].reactorId, rs[j].reactorId)
  {
    var rs := action.reactions;
    forall k, l | 0 <= k < l < |rs| ensures rs[k].reactorId != rs[l].reactorId {
      DistinctReactors(scene, m, action, k, l);
    }
    ReactorsOrdered(rs);
    Sorting.SortMembers(ByReactor, rs);
    Sorting.SortSorts(ByReactor, rs, multiset(rs));
    var sorted := InReactorOrder(rs);
    assert ByReactor(sorted[i], sorted[j]);
    Ordering.LexDecides(sorted[i].reactorId, sorted[j].reactorId);
  }

  /** Reactions are recorded in the order of the reactors' names, on every branch of every move. */
  lemma EffectsInOrder(scene: Scene, m: Mover, action: MoveAction, b: TransitionBranch, i: nat, j: nat)
    requires Sparing(scene.rule) && m.alive
    requires MoveOutcome(scene, m, action).Ok? && b in MoveOutcome(scene, m, action).value
    requires i < j < |b.effects|
    ensures Ordering.Earlier(b.effects[i].reactorId, b.effects[j].reactorId)
  {
    if action.reactions != [] {
      var paid, q := BranchOrigin(scene, m, action, b);
      ReactAllStory(scene.rule, paid, InReactorOrder(action.reactions), q);
      RefusedIffNotOk(scene, m, action, |action.reactions|);
      Sorting.SortMembers(ByReactor, action.reactions);
      assert |multiset(InReactorOrder(action.reactions))| == |multiset(action.reactions)|;
      hide Ordering.Earlier, ReactAll, InReactorOrder, Sparing;
      ReactorsAscend(scene, m, action, i, j);
    }
  }
}
