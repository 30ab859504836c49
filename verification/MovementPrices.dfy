/** What a step costs, read off the edge table, and what whole walks cost. */
module MovementPrices {
  import opened Common
  import opened MovementGraph
  import opened MovementWalks
  import opened Reals

  /** Some resolved edge leads from `t` to `n`. */
  ghost predicate CanStep(edges: EdgeTable, t: TileId, n: TileId) {
    exists e :: StepsTo(edges, t, n, e)
  }

  ghost predicate StepsTo(edges: EdgeTable, t: TileId, n: TileId, e: Edge) {
    t in edges && e in edges[t] && e.resolved && e.destination == n
  }

  /** Every resolved edge from `t` to `n` has this price. */
  ghost predicate Costs(edges: EdgeTable, t: TileId, n: TileId, ap: real, fatigue: real) {
    forall e :: StepsTo(edges, t, n, e) ==> e.apCost == Some(ap) && e.fatigueCost == Some(fatigue)
  }

  /** The terrain of `n` may be entered, and the actor has both prices for it. */
  predicate TerrainAllowed(w: World, n: TileId)
    requires n in w.tiles
  {
    var terrain := w.tiles[n].terrain;
    terrain != w.impassable && 0 <= terrain < |w.actor.apCosts| && terrain < |w.actor.fatigueCosts|
  }

  function Rise(w: World, t: TileId, n: TileId): int
    requires t in w.tiles && n in w.tiles
  {
    w.tiles[n].level - w.tiles[t].level
  }

  /** Direction `d` leads from `t` to `n`, where nobody is known to stand. */
  ghost predicate LeadsToFree(w: World, t: TileId, d: nat, n: TileId) {
    Leads(w, t, d, n) && n !in w.occupancy
  }

  lemma StepLeads(w: World, edges: EdgeTable, t: TileId, n: TileId, e: Edge) returns (d: nat)
    requires IsEdgeTable(w, edges) && t in w.tiles && StepsTo(edges, t, n, e)
    ensures LegalStep(w, t, d, e)
  {
    d := DirectionOf(w, edges, t, e);
  }

  lemma StepListed(w: World, edges: EdgeTable, t: TileId, d: nat, n: TileId, ap: real, fatigue: real)
    requires IsEdgeTable(w, edges) && LeadsToFree(w, t, d, n)
    requires StepCost(w.actor, w.tiles[t], w.tiles[n], w.impassable) == Some((ap, fatigue))
    ensures CanStep(edges, t, n)
  {
    var e := Edge(t, n, Step, None, Some(ap), Some(fatigue), ExitPenalty(w, t), true);
    assert LegalStep(w, t, d, e);
    LegalEdgeListed(w, edges, t, d, e);
    assert StepsTo(edges, t, n, e);
  }

  /** Forbidden or unpriced terrain, and levels too far apart, leave no step. */
  lemma NoStep(w: World, edges: EdgeTable, t: TileId, n: TileId)
    requires IsEdgeTable(w, edges) && t in w.tiles && n in w.tiles
    requires !TerrainAllowed(w, n) || Abs(Rise(w, t, n)) > w.actor.maxTraversibleLevels
    ensures !CanStep(edges, t, n)
  {
    if e :| StepsTo(edges, t, n, e) {
      var d := StepLeads(w, edges, t, n, e);
    }
  }

  /** Between tiles of one level a step costs what the terrain costs, if that is allowed. */
  lemma LevelStep(w: World, edges: EdgeTable, t: TileId, d: nat, n: TileId)
    requires IsEdgeTable(w, edges) && LeadsToFree(w, t, d, n)
    requires TerrainAllowed(w, n) && 0 <= w.actor.maxTraversibleLevels && Rise(w, t, n) == 0
    ensures var a, terrain := w.actor, w.tiles[n].terrain;
            && (CanStep(edges, t, n) <==> a.apCosts[terrain] >= 1.0 && a.fatigueCosts[terrain] >= 0.0)
            && Costs(edges, t, n, a.apCosts[terrain], Times(a.fatigueCosts[terrain], a.fatigueEffectMult))
  {
    var a, terrain := w.actor, w.tiles[n].terrain;
    PricedAt(w, edges, t, d, n, a.apCosts[terrain], a.fatigueCosts[terrain]);
  }

  /** A step down costs the level surcharges on top. */
  lemma DescendingStep(w: World, edges: EdgeTable, t: TileId, d: nat, n: TileId)
    requires IsEdgeTable(w, edges) && LeadsToFree(w, t, d, n)
    requires TerrainAllowed(w, n) && -w.actor.maxTraversibleLevels <= Rise(w, t, n) < 0
    ensures var a, terrain := w.actor, w.tiles[n].terrain;
            var ap, fatigue := a.apCosts[terrain] + a.levelApCost, a.fatigueCosts[terrain] + a.levelFatigueCost;
            && (CanStep(edges, t, n) <==> ap >= 1.0 && fatigue >= 0.0)
            && Costs(edges, t, n, ap, Times(fatigue, a.fatigueEffectMult))
  {
    var a, terrain := w.actor, w.tiles[n].terrain;
    PricedAt(w, edges, t, d, n, a.apCosts[terrain] + a.levelApCost, a.fatigueCosts[terrain] + a.levelFatigueCost);
  }

  /** A step up costs the climb on top of that. */
  lemma ClimbingStep(w: World, edges: EdgeTable, t: TileId, d: nat, n: TileId)
    requires IsEdgeTable(w, edges) && LeadsToFree(w, t, d, n)
    requires TerrainAllowed(w, n) && 0 < Rise(w, t, n) <= w.actor.maxTraversibleLevels
    ensures var a, terrain := w.actor, w.tiles[n].terrain;
            var ap := a.apCosts[terrain] + a.levelApCost;
            var fatigue := a.fatigueCosts[terrain] + a.levelFatigueCost + a.climbFatigueCost;
            && (CanStep(edges, t, n) <==> ap >= 1.0 && fatigue >= 0.0)
            && Costs(edges, t, n, ap, Times(fatigue, a.fatigueEffectMult))
  {
    var a, terrain := w.actor, w.tiles[n].terrain;
    PricedAt(w, edges, t, d, n, a.apCosts[terrain] + a.levelApCost,
             a.fatigueCosts[terrain] + a.levelFatigueCost + a.climbFatigueCost);
  }

  lemma PricedAt(w: World, edges: EdgeTable, t: TileId, d: nat, n: TileId, ap: real, fatigue: real)
    requires IsEdgeTable(w, edges) && LeadsToFree(w, t, d, n)
    requires StepCost(w.actor, w.tiles[t], w.tiles[n], w.impassable)
             == if ap < 1.0 || fatigue < 0.0 then None else Some((ap, Scaled(fatigue, w.actor.fatigueEffectMult)))
    ensures CanStep(edges, t, n) <==> ap >= 1.0 && fatigue >= 0.0
    ensures Costs(edges, t, n, ap, Times(fatigue, w.actor.fatigueEffectMult))
  {
    var cost := Scaled(fatigue, w.actor.fatigueEffectMult);
    assert cost == Times(fatigue, w.actor.fatigueEffectMult);
    hide StepCost, Scaled, Times;
    forall e | StepsTo(edges, t, n, e)
      ensures ap >= 1.0 && fatigue >= 0.0
      ensures e.apCost == Some(ap) && e.fatigueCost == Some(Times(fatigue, w.actor.fatigueEffectMult))
    {
      var c := StepLeads(w, edges, t, n, e);
    }
    if ap >= 1.0 && fatigue >= 0.0 {
      StepListed(w, edges, t, d, n, ap, cost);
    }
  }

  /** Between two tiles of one terrain, up costs just the climb more than down. */
  lemma ClimbingCostsMore(w: World, edges: EdgeTable, low: TileId, high: TileId, up: Edge, down: Edge)
    requires IsEdgeTable(w, edges) && low in w.tiles && high in w.tiles
    requires w.tiles[low].terrain == w.tiles[high].terrain && Rise(w, low, high) > 0
    requires StepsTo(edges, low, high, up) && StepsTo(edges, high, low, down)
    ensures up.fatigueCost.Some? && down.fatigueCost.Some? && up.apCost == down.apCost
    ensures up.fatigueCost.value - down.fatigueCost.value
            == Times(w.actor.climbFatigueCost, w.actor.fatigueEffectMult)
  {
    var d := StepLeads(w, edges, low, high, up);
    var c := StepLeads(w, edges, high, low, down);
    var a, terrain := w.actor, w.tiles[low].terrain;
    ScaledSum(a.fatigueCosts[terrain] + a.levelFatigueCost, a.climbFatigueCost, a.fatigueEffectMult);
  }

  lemma ScaledSum(x: real, y: real, m: real)
    ensures Scaled(x + y, m) == Scaled(x, m) + Times(y, m)
  {
  }

  /** Leaving a tile under a zone of control is marked on every edge, and only there. */
  lemma ExitsAreMarked(w: World, edges: EdgeTable, t: TileId, e: Edge)
    requires IsEdgeTable(w, edges) && t in w.tiles && e in edges[t]
    ensures e.source == t
    ensures e.zocPathPenalty == if t in w.zoc then 4 else 0
  {
    var d := DirectionOf(w, edges, t, e);
  }

  // ----- What walks cost -----

  predicate WholePriced(e: Edge) {
    && e.resolved && e.apCost.Some? && e.fatigueCost.Some?
    && e.apCost.value == e.apCost.value.Floor as real && e.fatigueCost.value == e.fatigueCost.value.Floor as real
  }

  predicate WholePrices(w: seq<Edge>) {
    forall i :: 0 <= i < |w| ==> WholePriced(w[i])
  }

  /** What the first `n` edges cost in AP. */
  function ApSpent(w: seq<Edge>, n: nat): int
    requires WholePrices(w) && n <= |w|
  {
    if n == 0 then 0 else ApSpent(w, n - 1) + w[n - 1].apCost.value.Floor
  }

  function FatigueSpent(w: seq<Edge>, n: nat): int
    requires WholePrices(w) && n <= |w|
  {
    if n == 0 then 0 else FatigueSpent(w, n - 1) + w[n - 1].fatigueCost.value.Floor
  }

  /** The edges follow one another from `origin`. */
  ghost predicate Connected(edges: EdgeTable, origin: TileId, w: seq<Edge>) {
    forall i :: 0 <= i < |w| ==> Follows(edges, origin, w, i)
  }

  ghost predicate Follows(edges: EdgeTable, origin: TileId, w: seq<Edge>, i: nat)
    requires i < |w|
  {
    w[i] in Out(edges, Stop(origin, w, i))
  }

  /** The tile reached after `n` edges. */
  function Stop(origin: TileId, w: seq<Edge>, n: nat): TileId
    requires n <= |w|
  {
    if n == 0 then origin else w[n - 1].destination
  }

  /** The first `n` edges can be paid for. */
  ghost predicate Paid(p: Problem, w: seq<Edge>, n: nat)
    requires WholePrices(w) && n <= |w|
  {
    p.start.ap - ApSpent(w, n) >= 0 && p.start.fatigue + FatigueSpent(w, n) <= p.fatigueMax
  }

  /** Every first part of the walk can be paid for. */
  ghost predicate Affordable(p: Problem, w: seq<Edge>)
    requires WholePrices(w)
  {
    forall i :: 1 <= i <= |w| ==> Paid(p, w, i)
  }

  lemma {:induction false} PrefixSpends(w: seq<Edge>, k: nat, n: nat)
    requires WholePrices(w) && n <= k <= |w|
    ensures ApSpent(w[..k], n) == ApSpent(w, n) && FatigueSpent(w[..k], n) == FatigueSpent(w, n)
  {
    if n > 0 {
      PrefixSpends(w, k, n - 1);
    }
  }

  lemma ConnectedStep(edges: EdgeTable, origin: TileId, w: seq<Edge>, k: nat)
    requires |w| == k + 1
    ensures Connected(edges, origin, w) <==> Connected(edges, origin, w[..k]) && Follows(edges, origin, w, k)
    ensures Stop(origin, w[..k], k) == Stop(origin, w, k)
  {
    forall i | 0 <= i < k ensures Follows(edges, origin, w[..k], i) <==> Follows(edges, origin, w, i) {
      assert w[..k][i] == w[i] && Stop(origin, w[..k], i) == Stop(origin, w, i);
    }
    assert Stop(origin, w[..k], k) == Stop(origin, w, k);
    hide Follows, Stop;
  }

  lemma AffordableStep(p: Problem, w: seq<Edge>, k: nat)
    requires |w| == k + 1 && WholePrices(w)
    ensures Affordable(p, w) <==> Affordable(p, w[..k]) && Paid(p, w, k + 1)
  {
    forall i | 0 <= i <= k ensures Paid(p, w[..k], i) <==> Paid(p, w, i) {
      PrefixSpends(w, k, i);
    }
    hide Paid;
  }

  /**
   * With whole prices, a walk can be taken exactly if its edges follow one another and every first part of
   * it can be paid for; what it leaves is what the plain sums leave.
   */
  lemma {:induction false} WalkBill(p: Problem, w: seq<Edge>)
    requires Priced(p.edges) && WholePrices(w) && !p.frozen
    ensures Walk(p, w).Some? <==> Connected(p.edges, p.origin, w) && Affordable(p, w)
    ensures Walk(p, w).Some? ==>
              Walk(p, w).value
              == Spot(Stop(p.origin, w, |w|),
                      Label(p.start.ap - ApSpent(w, |w|), p.start.fatigue + FatigueSpent(w, |w|)))
  {
    if w != [] {
      var k := |w| - 1;
      WalkBill(p, w[..k]);
      ConnectedStep(p.edges, p.origin, w, k);
      AffordableStep(p, w, k);
      PrefixSpends(w, k, k);
      if Walk(p, w[..k]).Some? {
        WholeStep(p.fatigueMax, Walk(p, w[..k]).value.res, w[k]);
      }
    }
  }

  lemma RoundsToItself(x: real, n: int)
    requires x == n as real
    ensures BBRound(x) == n
  {
  }

  lemma WholeStep(fatigueMax: int, l: Label, e: Edge)
    requires WholePriced(e)
    ensures var ap, fatigue := l.ap - e.apCost.value.Floor, l.fatigue + e.fatigueCost.value.Floor;
            Advance(fatigueMax, l, e) == if ap >= 0 && fatigue <= fatigueMax then Some(Label(ap, fatigue)) else None
  {
    var a, f := e.apCost.value.Floor, e.fatigueCost.value.Floor;
    RoundsToItself(l.ap as real - e.apCost.value, l.ap - a);
    RoundsToItself(l.fatigue as real + e.fatigueCost.value, l.fatigue + f);
    hide BBRound;
  }

  /** With any prices, each step rounds its fatigue by at most half a point. */
  lemma {:induction false} FatigueDrifts(p: Problem, w: seq<Edge>)
    requires Priced(p.edges) && Walk(p, w).Some?
    requires forall i :: 0 <= i < |w| ==> w[i].fatigueCost.Some?
    ensures var due := p.start.fatigue as real + FatigueDue(w);
            due - 0.5 * |w| as real <= Walk(p, w).value.res.fatigue as real <= due + 0.5 * |w| as real
  {
    if w != [] {
      FatigueDrifts(p, w[..|w| - 1]);
    }
  }

  function FatigueDue(w: seq<Edge>): real
    requires forall i :: 0 <= i < |w| ==> w[i].fatigueCost.Some?
  {
    if w == [] then 0.0 else FatigueDue(w[..|w| - 1]) + w[|w| - 1].fatigueCost.value
  }
}
