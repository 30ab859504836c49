/** The player-known movement graph: tiles, actor tables, step prices and outgoing edges. */
module MovementGraph {
  import opened Common

  type TileId = string

  datatype Tile = Tile(tileId: TileId, terrain: int, level: int, neighbors: seq<Option<TileId>>)

  datatype Actor = Actor(
    ap: int, fatigue: int, fatigueMax: int,
    apCosts: seq<real>, fatigueCosts: seq<real>,
    levelApCost: real, levelFatigueCost: real, climbFatigueCost: real,
    maxTraversibleLevels: int, fatigueEffectMult: real,
    rooted: bool, stunned: bool)

  datatype EdgeKind = Step | AllyJump

  datatype Edge = Edge(
    source: TileId, destination: TileId, kind: EdgeKind, via: Option<TileId>,
    apCost: Option<real>, fatigueCost: Option<real>, zocPathPenalty: int, resolved: bool)

  type EdgeTable = map<TileId, seq<Edge>>

  /** Everything edge construction may look at; hidden occupancy is not part of it. */
  datatype World = World(
    tiles: map<TileId, Tile>, actor: Actor, occupancy: map<TileId, string>,
    zoc: set<TileId>, impassable: int)

  /** Round to the nearest whole number, halves upwards. */
  function BBRound(value: real): (r: int)
    ensures value - 0.5 < r as real <= value + 0.5
  {
    (value + 0.5).Floor
  }

  function Scaled(fatigue: real, mult: real): real {
    fatigue * mult
  }

  function StepCost(actor: Actor, source: Tile, destination: Tile, impassable: int): Option<(real, real)> {
    if destination.terrain == impassable
       || destination.terrain < 0
       || destination.terrain >= |actor.apCosts|
       || destination.terrain >= |actor.fatigueCosts|
    then None
    else
      var rise := destination.level - source.level;
      if Abs(rise) > actor.maxTraversibleLevels then None
      else
        var ap := actor.apCosts[destination.terrain] + (if rise != 0 then actor.levelApCost else 0.0);
        var fatigue := actor.fatigueCosts[destination.terrain]
                       + (if rise != 0 then actor.levelFatigueCost else 0.0)
                       + (if rise > 0 then actor.climbFatigueCost else 0.0);
        if ap < 1.0 || fatigue < 0.0 then None
        else Some((ap, Scaled(fatigue, actor.fatigueEffectMult)))
  }

  function Occupant(w: World, t: TileId): Option<string> {
    if t in w.occupancy then Some(w.occupancy[t]) else None
  }

  function ExitPenalty(w: World, t: TileId): int {
    if t in w.zoc then 4 else 0
  }

  // ----- What a legal transition is, stated on its own -----

  /** Direction `d` of `t` leads to the mapped tile `n`. */
  ghost predicate Leads(w: World, t: TileId, d: nat, n: TileId) {
    t in w.tiles && d < |w.tiles[t].neighbors| && w.tiles[t].neighbors[d] == Some(n) && n in w.tiles
  }

  /** `e` is an ordinary step: onto a tile known to hold nobody who blocks, at the actor's own price. */
  ghost predicate LegalStep(w: World, t: TileId, d: nat, e: Edge) {
    && Leads(w, t, d, e.destination)
    && Occupant(w, e.destination) !in {Some("HOSTILE"), Some("BLOCKED"), Some("ALLY")}
    && e.resolved && e.apCost.Some? && e.fatigueCost.Some?
    && StepCost(w.actor, w.tiles[t], w.tiles[e.destination], w.impassable)
       == Some((e.apCost.value, e.fatigueCost.value))
    && e == Edge(t, e.destination, Step, None, e.apCost, e.fatigueCost, ExitPenalty(w, t), true)
  }

  /** `e` passes over exactly one ally, straight on, to a free tile within the climbing limit. */
  ghost predicate LegalJump(w: World, t: TileId, d: nat, e: Edge) {
    && e.via.Some?
    && Leads(w, t, d, e.via.value)
    && Occupant(w, e.via.value) == Some("ALLY")
    && Leads(w, e.via.value, d, e.destination)
    && e.destination !in w.occupancy
    && w.tiles[e.destination].terrain != w.impassable
    && Abs(w.tiles[e.destination].level - w.tiles[t].level) <= w.actor.maxTraversibleLevels
    && e == Edge(t, e.destination, AllyJump, e.via, None, None, ExitPenalty(w, t), false)
  }

  ghost predicate LegalEdge(w: World, t: TileId, d: nat, e: Edge) {
    LegalStep(w, t, d, e) || LegalJump(w, t, d, e)
  }

  /** Some legal transition leaves `t` in direction `d`. */
  ghost predicate IsExit(w: World, t: TileId, d: nat) {
    exists e :: LegalEdge(w, t, d, e)
  }

  /** At most one transition leaves a tile in one direction. */
  lemma LegalEdgeUnique(w: World, t: TileId, d: nat, e: Edge, f: Edge)
    requires LegalEdge(w, t, d, e) && LegalEdge(w, t, d, f)
    ensures e == f
  {
  }

  /**
   * `out` lists the legal transitions in the first `n` directions of `t`, each once, in
   * direction order: `from[i]` is the direction that `out[i]` takes.
   */
  ghost predicate Lists(w: World, t: TileId, n: nat, out: seq<Edge>, from: seq<nat>) {
    && |from| == |out|
    && (forall i :: 0 <= i < |out| ==> from[i] < n && LegalEdge(w, t, from[i], out[i]))
    && (forall i, j :: 0 <= i < j < |from| ==> from[i] < from[j])
    && (forall d: nat :: d < n && IsExit(w, t, d) ==> d in from)
  }

  ghost predicate OutgoingOf(w: World, t: TileId, out: seq<Edge>)
    requires t in w.tiles
  {
    exists from: seq<nat> :: Lists(w, t, |w.tiles[t].neighbors|, out, from)
  }

  /** The edge table of a world: for every tile its legal transitions, in direction order. */
  ghost predicate IsEdgeTable(w: World, edges: EdgeTable) {
    && edges.Keys == w.tiles.Keys
    && forall t :: t in edges ==> OutgoingOf(w, t, edges[t])
  }

  method BuildEdges(w: World) returns (edges: EdgeTable)
    ensures IsEdgeTable(w, edges)
  {
    edges := map[];
    var todo := w.tiles.Keys;
    while todo != {}
      invariant todo <= w.tiles.Keys
      invariant edges.Keys == w.tiles.Keys - todo
      invariant forall t :: t in edges ==> OutgoingOf(w, t, edges[t])
      decreases todo
    {
      var t :| t in todo;
      var out := OutgoingEdges(w, t);
      edges := edges[t := out];
      todo := todo - {t};
    }
  }

  method OutgoingEdges(w: World, t: TileId) returns (out: seq<Edge>)
    requires t in w.tiles
    ensures OutgoingOf(w, t, out)
  {
    var tile := w.tiles[t];
    out := [];
    ghost var from: seq<nat> := [];
    for d := 0 to |tile.neighbors|
      invariant Lists(w, t, d, out, from)
    {
      if tile.neighbors[d].None? || tile.neighbors[d].value !in w.tiles {
        continue;
      }
      var n := tile.neighbors[d].value;
      var occupant := Occupant(w, n);
      if occupant == Some("HOSTILE") || occupant == Some("BLOCKED") {
        continue;
      }
      if occupant == Some("ALLY") {
        var ally := w.tiles[n];
        if d >= |ally.neighbors| {
          continue;
        }
        var landingId := ally.neighbors[d];
        if landingId.None? || landingId.value !in w.tiles || landingId.value in w.occupancy {
          continue;
        }
        var landing := w.tiles[landingId.value];
        if landing.terrain == w.impassable
           || Abs(landing.level - tile.level) > w.actor.maxTraversibleLevels {
          continue;
        }
        var jump := Edge(t, landingId.value, AllyJump, Some(n), None, None, ExitPenalty(w, t), false);
        assert LegalJump(w, t, d, jump);
        out, from := out + [jump], from + [d];
        continue;
      }
      var step := StepCost(w.actor, tile, w.tiles[n], w.impassable);
      if step.Some? {
        var edge := Edge(t, n, Step, None, Some(step.value.0), Some(step.value.1), ExitPenalty(w, t), true);
        assert LegalStep(w, t, d, edge);
        out, from := out + [edge], from + [d];
      }
    }
  }

  // ----- What the search relies on -----

  /** Every resolved edge has a price, and its AP price is at least 1. */
  predicate Priced(edges: EdgeTable) {
    forall t, e :: t in edges && e in edges[t] && e.resolved ==>
      e.apCost.Some? && e.fatigueCost.Some? && e.apCost.value >= 1.0
  }

  /** No edge recovers fatigue. */
  predicate Tiring(edges: EdgeTable) {
    forall t, e :: t in edges && e in edges[t] && e.resolved ==>
      e.fatigueCost.Some? && e.fatigueCost.value >= 0.0
  }

  /** In an edge table, an edge is present exactly when some direction makes it legal. */
  lemma EdgeIffLegal(w: World, edges: EdgeTable, t: TileId, e: Edge)
    requires IsEdgeTable(w, edges) && t in w.tiles
    ensures e in edges[t] <==> exists d: nat :: LegalEdge(w, t, d, e)
  {
    if e in edges[t] {
      var d := DirectionOf(w, edges, t, e);
    }
    if d: nat :| LegalEdge(w, t, d, e) {
      LegalEdgeListed(w, edges, t, d, e);
    }
  }

  lemma ListedIsLegal(w: World, t: TileId, n: nat, out: seq<Edge>, from: seq<nat>, i: nat)
    requires Lists(w, t, n, out, from) && i < |out|
    ensures LegalEdge(w, t, from[i], out[i])
  {
  }

  lemma DirectionOf(w: World, edges: EdgeTable, t: TileId, e: Edge) returns (d: nat)
    requires IsEdgeTable(w, edges) && t in w.tiles && e in edges[t]
    ensures LegalEdge(w, t, d, e)
  {
    assert OutgoingOf(w, t, edges[t]);
    var from: seq<nat> :| Lists(w, t, |w.tiles[t].neighbors|, edges[t], from);
    var i: nat :| i < |edges[t]| && edges[t][i] == e;
    d := from[i];
    ListedIsLegal(w, t, |w.tiles[t].neighbors|, edges[t], from, i);
  }

  lemma LegalEdgeListed(w: World, edges: EdgeTable, t: TileId, d: nat, e: Edge)
    requires IsEdgeTable(w, edges) && t in w.tiles && LegalEdge(w, t, d, e)
    ensures e in edges[t]
  {
    var from :| Lists(w, t, |w.tiles[t].neighbors|, edges[t], from);
    assert d < |w.tiles[t].neighbors|;
    assert IsExit(w, t, d);
    var i :| 0 <= i < |from| && from[i] == d;
    LegalEdgeUnique(w, t, d, e, edges[t][i]);
  }

  lemma EdgeTableIsPriced(w: World, edges: EdgeTable)
    requires IsEdgeTable(w, edges)
    ensures Priced(edges)
    ensures w.actor.fatigueEffectMult >= 0.0 ==> Tiring(edges)
  {
    forall t, e | t in edges && e in edges[t] && e.resolved
      ensures e.apCost.Some? && e.fatigueCost.Some? && e.apCost.value >= 1.0
      ensures w.actor.fatigueEffectMult >= 0.0 ==> e.fatigueCost.value >= 0.0
    {
      var d := DirectionOf(w, edges, t, e);
    }
  }
}
