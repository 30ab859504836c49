/** A move under contingent attacks of opportunity: validation, costs and reaction branching. */
module Reactions {
  import opened Common
  import opened AttackOutcomes
  import opened AttackKnowledge
  import Ordering
  import Sorting

  datatype Mover = Mover(
    actorId: string, hp: Known, head: Known, body: Known,
    ap: int, fatigue: int, fatigueCapacity: int, position: Option<string>, alive: bool)

  /** A supplied reaction; `profile` is what attack evaluation finds for it (None: it is not covered). */
  datatype Reaction = Reaction(
    pathStep: string, reactorId: string, skillId: Option<string>, hitChance: Option<int>,
    unsupportedMechanic: Option<string>, profile: Option<DamageProfile>)

  /** Another combatant, as far as reactions look at it. `position` is None unless exactly known. */
  datatype Figure = Figure(hostile: bool, alive: bool, position: Option<string>)

  /** How one strike at the mover as it now is comes out. */
  type StrikeRule = (Reaction, int, Mover) -> Result<seq<OutcomeBranch>, Refusal>

  datatype Scene = Scene(figures: map<string, Figure>, neighbors: map<string, seq<Option<string>>>, rule: StrikeRule)

  datatype MoveAction = MoveAction(
    path: seq<string>, destination: string, apCost: Option<int>, fatigueCost: Option<int>, reactions: seq<Reaction>)

  datatype Refusal = Unsupported | Invalid

  datatype Aoo = Aoo(reactorId: string, result: HitResult, hpDamage: int)

  datatype Pending = Pending(probability: real, mover: Mover, interrupted: bool, effects: seq<Aoo>)

  datatype TransitionBranch = TransitionBranch(
    probability: real, completed: bool, interrupted: bool, mover: Mover, tile: string, effects: seq<Aoo>)

  // ----- Geometry -----

  /** The path indices at which `step` stands. */
  function Matches(path: seq<string>, step: string): seq<nat> {
    if path == [] then []
    else
      var front := Matches(path[..|path| - 1], step);
      if path[|path| - 1] == step then front + [|path| - 1] else front
  }

  /** The tile the mover is leaving when it takes the step at path index `i`. */
  function LeavingTile(m: Mover, path: seq<string>, i: nat): string
    requires m.position.Some? && i < |path|
  {
    if i == 0 then m.position.value else path[i - 1]
  }

  /** The first objection to reaction `r` itself, if any. */
  function Objection(scene: Scene, m: Mover, action: MoveAction, r: Reaction): Option<Refusal> {
    var matches := Matches(action.path, r.pathStep);
    if m.position.None? || |matches| != 1 || matches[0] >= |action.path| then Some(Unsupported)
    else if r.reactorId !in scene.figures then Some(Unsupported)
    else
      var figure := scene.figures[r.reactorId];
      var origin := LeavingTile(m, action.path, matches[0]);
      if !figure.hostile || !figure.alive || figure.position.None? then Some(Unsupported)
      else if origin !in scene.neighbors then Some(Invalid)
      else if figure.position !in scene.neighbors[origin] then Some(Unsupported)
      else None
  }

  function Identity(r: Reaction): (string, string) {
    (r.pathStep, r.reactorId)
  }

  /** Every reaction is a known living hostile next to the tile being left, and no two are the same. */
  ghost predicate GeometryOk(scene: Scene, m: Mover, action: MoveAction) {
    && (forall i :: 0 <= i < |action.reactions| ==> Objection(scene, m, action, action.reactions[i]).None?)
    && (forall i, j :: 0 <= i < j < |action.reactions| ==>
          Identity(action.reactions[i]) != Identity(action.reactions[j]))
  }

  /** The first refusal in the order the reactions are listed. */
  function FirstRefusal(scene: Scene, m: Mover, action: MoveAction, n: nat): Option<Refusal>
    requires n <= |action.reactions|
  {
    if n == 0 then None
    else if FirstRefusal(scene, m, action, n - 1).Some? then FirstRefusal(scene, m, action, n - 1)
    else if exists j :: 0 <= j < n - 1 && Identity(action.reactions[j]) == Identity(action.reactions[n - 1])
    then Some(Unsupported)
    else Objection(scene, m, action, action.reactions[n - 1])
  }

  lemma {:induction false} RefusedIffNotOk(scene: Scene, m: Mover, action: MoveAction, n: nat)
    requires n <= |action.reactions|
    ensures FirstRefusal(scene, m, action, n).None? <==>
            && (forall i :: 0 <= i < n ==> Objection(scene, m, action, action.reactions[i]).None?)
            && (forall i, j :: 0 <= i < j < n ==> Identity(action.reactions[i]) != Identity(action.reactions[j]))
  {
    if n > 0 {
      RefusedIffNotOk(scene, m, action, n - 1);
    }
  }

  method ValidateReactionGeometry(scene: Scene, m: Mover, action: MoveAction) returns (refusal: Option<Refusal>)
    ensures refusal == FirstRefusal(scene, m, action, |action.reactions|)
    ensures refusal.None? <==> GeometryOk(scene, m, action)
  {
    var seen: set<(string, string)> := {};
    refusal := None;
    for i := 0 to |action.reactions|
      invariant refusal == FirstRefusal(scene, m, action, i)
      invariant refusal.None? ==>
                  forall x :: x in seen <==> exists j :: 0 <= j < i && Identity(action.reactions[j]) == x
    {
      if refusal.None? {
        var r := action.reactions[i];
        if Identity(r) in seen {
          refusal := Some(Unsupported);
        } else {
          seen := seen + {Identity(r)};
          refusal := Objection(scene, m, action, r);
        }
      }
    }
    RefusedIffNotOk(scene, m, action, |action.reactions|);
  }

  // ----- Costs -----

  /** AP and fatigue are paid once, or the action is refused. */
  function WithCosts(m: Mover, action: MoveAction): Result<Mover, Refusal> {
    if action.apCost.None? || action.fatigueCost.None? then Err(Invalid)
    else if m.ap - action.apCost.value < 0 || m.fatigue + action.fatigueCost.value > m.fatigueCapacity then Err(Invalid)
    else Ok(m.(ap := m.ap - action.apCost.value, fatigue := m.fatigue + action.fatigueCost.value))
  }

  // ----- One reaction -----

  /** The hit chance a reaction strikes with, when it is a supported attack with a capped chance. */
  function HitOf(r: Reaction): Result<int, Refusal> {
    if r.unsupportedMechanic.Some? || r.skillId.None? || r.hitChance.None? || !(5 <= r.hitChance.value <= 95)
    then Err(Unsupported)
    else Ok(r.hitChance.value)
  }

  function AttackOf(hit: int, profile: DamageProfile): Attack {
    Attack(hit, profile, Target(0, 0, 0), None, None)
  }

  /** The outcome branches of one strike at the mover as it now is; hidden-state outcomes are refused. */
  function Strike(playerLegal: bool, r: Reaction, hit: int, m: Mover): Result<seq<OutcomeBranch>, Refusal> {
    if r.profile.None? then Err(Unsupported)
    else
      match Outcome(AttackOf(hit, r.profile.value), m.hp, m.head, m.body, playerLegal)
      case Err(_) => Err(Unsupported)
      case Ok(o) => if o.epistemic || o.scenarios != [] || o.branches == [] then Err(Unsupported) else Ok(o.branches)
  }

  type Strikes = Mover -> Result<seq<OutcomeBranch>, Refusal>

  /** Strikes are ordinary attacks, evaluated under this information profile. */
  function OrdinaryAttacks(playerLegal: bool): StrikeRule {
    (r, hit, m) => Strike(playerLegal, r, hit, m)
  }

  function Striker(rule: StrikeRule, r: Reaction, hit: int): Strikes {
    m => rule(r, hit, m)
  }

  /** What one outcome branch makes of one pending branch. */
  function Next(p: Pending, r: Reaction, b: OutcomeBranch): Pending {
    Pending(
      p.probability * b.probability,
      p.mover.(hp := Exact(b.targetHp), head := Exact(Trunc(b.targetHead)), body := Exact(Trunc(b.targetBody)),
               alive := p.mover.alive && !b.killed),
      p.interrupted || b.result != Miss,
      p.effects + [Aoo(r.reactorId, b.result, b.hpDamage)])
  }

  function Follow(p: Pending, r: Reaction, bs: seq<OutcomeBranch>): seq<Pending> {
    if bs == [] then [] else Follow(p, r, bs[..|bs| - 1]) + [Next(p, r, bs[|bs| - 1])]
  }

  /** One reaction against every pending branch: the dead are passed over, the living are struck at. */
  function StrikeAll(strike: Strikes, r: Reaction, ps: seq<Pending>): Result<seq<Pending>, Refusal> {
    if ps == [] then Ok([])
    else
      var p := ps[|ps| - 1];
      match StrikeAll(strike, r, ps[..|ps| - 1])
      case Err(e) => Err(e)
      case Ok(front) =>
        if !p.mover.alive then Ok(front + [p.(interrupted := true)])
        else match strike(p.mover)
          case Err(e) => Err(e)
          case Ok(bs) => Ok(front + Follow(p, r, bs))
  }

  /** All reactions, one after the other, from the paid mover. */
  function ReactAll(rule: StrikeRule, paid: Mover, rs: seq<Reaction>): Result<seq<Pending>, Refusal> {
    if rs == [] then Ok([Pending(1.0, paid, false, [])])
    else
      var r := rs[|rs| - 1];
      match ReactAll(rule, paid, rs[..|rs| - 1])
      case Err(e) => Err(e)
      case Ok(ps) =>
        match HitOf(r)
        case Err(e) => Err(e)
        case Ok(hit) => StrikeAll(Striker(rule, r, hit), r, ps)
  }

  // ----- The move -----

  predicate ByReactor(a: Reaction, b: Reaction) {
    Ordering.LexLess(a.reactorId, b.reactorId)
  }

  function InReactorOrder(rs: seq<Reaction>): seq<Reaction> {
    Sorting.SortBy(ByReactor, rs)
  }

  predicate Clear(p: Pending) {
    p.mover.alive && !p.interrupted
  }

  /** Only a living, uninterrupted mover reaches the destination. */
  function Finish(p: Pending, origin: string, destination: string): TransitionBranch {
    var tile := if Clear(p) then destination else origin;
    TransitionBranch(p.probability, Clear(p), !Clear(p), p.mover.(position := Some(tile)), tile, p.effects)
  }

  function FinishAll(ps: seq<Pending>, origin: string, destination: string): seq<TransitionBranch> {
    seq(|ps|, i requires 0 <= i < |ps| => Finish(ps[i], origin, destination))
  }

  /** The mover with its costs paid, or the refusal: geometry first, then path and position, then costs. */
  function Attempt(scene: Scene, m: Mover, action: MoveAction): (r: Result<Mover, Refusal>)
    ensures r.Ok? && action.reactions != [] ==> m.position.Some? && |action.path| == 1
    ensures r.Ok? ==> WithCosts(m, action) == r
  {
    var refusal := FirstRefusal(scene, m, action, |action.reactions|);
    if refusal.Some? then Err(refusal.value)
    else if action.reactions != [] && (|action.path| != 1 || m.position.None?) then Err(Unsupported)
    else WithCosts(m, action)
  }

  function MoveOutcome(scene: Scene, m: Mover, action: MoveAction): Result<seq<TransitionBranch>, Refusal> {
    match Attempt(scene, m, action)
    case Err(e) => Err(e)
    case Ok(paid) =>
      if action.reactions == [] then
        Ok([TransitionBranch(1.0, true, false, paid.(position := Some(action.destination)), action.destination, [])])
      else
        match ReactAll(scene.rule, paid, InReactorOrder(action.reactions))
        case Err(e) => Err(e)
        case Ok(ps) => Ok(FinishAll(ps, m.position.value, action.destination))
  }

  method Move(scene: Scene, m: Mover, action: MoveAction) returns (r: Result<seq<TransitionBranch>, Refusal>)
    ensures r == MoveOutcome(scene, m, action)
  {
    var refusal := ValidateReactionGeometry(scene, m, action);
    if refusal.Some? {
      return Err(refusal.value);
    }
    if action.reactions != [] && |action.path| != 1 {
      return Err(Unsupported);
    }
    if action.reactions == [] {
      var costs := WithCosts(m, action);
      if costs.Err? {
        return Err(costs.error);
      }
      var moved := costs.value.(position := Some(action.destination));
      return Ok([TransitionBranch(1.0, true, false, moved, action.destination, [])]);
    }
    if m.position.None? {
      return Err(Unsupported);
    }
    var costs := WithCosts(m, action);
    if costs.Err? {
      return Err(costs.error);
    }
    var sorted := InReactorOrder(action.reactions);
    var pending := [Pending(1.0, costs.value, false, [])];
    for i := 0 to |sorted|
      invariant ReactAll(scene.rule, costs.value, sorted[..i]) == Ok(pending)
    {
      assert sorted[..i + 1][..i] == sorted[..i];
      var hit := HitOf(sorted[i]);
      if hit.Err? {
        RefusalLasts(scene.rule, costs.value, sorted, i + 1);
        return Err(hit.error);
      }
      var struck := StrikePending(scene.rule, sorted[i], hit.value, pending);
      if struck.Err? {
        RefusalLasts(scene.rule, costs.value, sorted, i + 1);
        return Err(struck.error);
      }
      pending := struck.value;
    }
    assert sorted[..|sorted|] == sorted;
    r := Ok(FinishAll(pending, m.position.value, action.destination));
  }

  /** The loop over the pending branches. */
  method StrikePending(rule: StrikeRule, r: Reaction, hit: int, pending: seq<Pending>)
    returns (result: Result<seq<Pending>, Refusal>)
    ensures result == StrikeAll(Striker(rule, r, hit), r, pending)
  {
    var next: seq<Pending> := [];
    for i := 0 to |pending|
      invariant StrikeAll(Striker(rule, r, hit), r, pending[..i]) == Ok(next)
    {
      assert pending[..i + 1][..i] == pending[..i];
      var p := pending[i];
      if !p.mover.alive {
        next := next + [p.(interrupted := true)];
        continue;
      }
      var struck := rule(r, hit, p.mover);
      if struck.Err? {
        StrikeRefusalLasts(Striker(rule, r, hit), r, pending, i + 1);
        return Err(struck.error);
      }
      var followed := FollowBranches(p, r, struck.value);
      next := next + followed;
    }
    assert pending[..|pending|] == pending;
    result := Ok(next);
  }

  method FollowBranches(p: Pending, r: Reaction, bs: seq<OutcomeBranch>) returns (next: seq<Pending>)
    ensures next == Follow(p, r, bs)
  {
    next := [];
    for j := 0 to |bs|
      invariant next == Follow(p, r, bs[..j])
    {
      assert bs[..j + 1][..j] == bs[..j];
      next := next + [Next(p, r, bs[j])];
    }
    assert bs[..|bs|] == bs;
  }

  lemma {:induction false} RefusalLasts(rule: StrikeRule, paid: Mover, rs: seq<Reaction>, n: nat)
    requires n <= |rs| && ReactAll(rule, paid, rs[..n]).Err?
    ensures ReactAll(rule, paid, rs) == ReactAll(rule, paid, rs[..n])
    decreases |rs|
  {
    if n == |rs| {
      assert rs[..n] == rs;
    } else {
      assert rs[..|rs| - 1][..n] == rs[..n];
      RefusalLasts(rule, paid, rs[..|rs| - 1], n);
    }
  }

  lemma {:induction false} StrikeRefusalLasts(strike: Strikes, r: Reaction, ps: seq<Pending>, n: nat)
    requires n <= |ps| && StrikeAll(strike, r, ps[..n]).Err?
    ensures StrikeAll(strike, r, ps) == StrikeAll(strike, r, ps[..n])
    decreases |ps|
  {
    if n == |ps| {
      assert ps[..n] == ps;
    } else {
      assert ps[..|ps| - 1][..n] == ps[..n];
      StrikeRefusalLasts(strike, r, ps[..|ps| - 1], n);
    }
  }
}
