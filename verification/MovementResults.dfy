/** What the movement graph's answers mean, and how they compare across runs. */
module MovementResults {
  import opened Common
  import opened MovementGraph
  import opened MovementWalks
  import opened MovementSearch

  datatype MovementGraphResult = MovementGraphResult(
    edges: EdgeTable, reachable: set<TileId>, bestResources: map<TileId, Label>,
    inspectedHiddenOccupancy: bool)

  ghost predicate Reachable(p: Problem, t: TileId)
    requires Priced(p.edges)
  {
    exists l :: Attained(p, Spot(t, l))
  }

  /** `l` is the lexicographic optimum on `t`: most AP left, then least fatigue, over all feasible walks. */
  ghost predicate IsBest(p: Problem, t: TileId, l: Label)
    requires Priced(p.edges)
  {
    && Attained(p, Spot(t, l))
    && forall k :: Attained(p, Spot(t, k)) ==> k == l || Before(l, k)
  }

  method BuildMovementGraph(tiles: map<TileId, Tile>, originId: TileId, actor: Actor,
                            knownOccupancy: Option<map<TileId, string>>,
                            hiddenOccupancy: Option<map<TileId, string>>,
                            hostileZocTiles: Option<set<TileId>>, impassable: int)
    returns (r: Result<MovementGraphResult, string>)
    ensures r.Err? <==> originId !in tiles
    ensures r.Ok? ==> Answers(WorldOf(tiles, actor, knownOccupancy, hostileZocTiles, impassable), originId, r.value)
  {
    if originId !in tiles {
      return Err("movement origin is outside canonical topology");
    }
    var w := WorldOf(tiles, actor, knownOccupancy, hostileZocTiles, impassable);
    var edges := BuildEdges(w);
    EdgeTableIsPriced(w, edges);
    var reachable, best := ReachableResources(edges, originId, actor);
    ghost var labels :| HeadsOf(ProblemOf(edges, originId, actor), labels, reachable, best);
    FrontierAnswers(ProblemOf(edges, originId, actor), labels);
    r := Ok(MovementGraphResult(edges, reachable, best, false));
  }

  function WorldOf(tiles: map<TileId, Tile>, actor: Actor, knownOccupancy: Option<map<TileId, string>>,
                   hostileZocTiles: Option<set<TileId>>, impassable: int): World
  {
    World(tiles, actor,
          if knownOccupancy.Some? then knownOccupancy.value else map[],
          if hostileZocTiles.Some? then hostileZocTiles.value else {},
          impassable)
  }

  /** A correct answer for one world and origin, with no reference to how it was found. */
  ghost predicate Answers(w: World, originId: TileId, r: MovementGraphResult) {
    && IsEdgeTable(w, r.edges) && Priced(r.edges)
    && var p := ProblemOf(r.edges, originId, w.actor);
    && (forall t :: t in r.reachable <==> Reachable(p, t))
    && r.bestResources.Keys == r.reachable
    && (forall t :: t in r.reachable ==> IsBest(p, t, r.bestResources[t]))
  }

  /** The head of a tile's list is the lexicographic optimum of that tile's spots. */
  lemma HeadIsBest(spots: iset<Spot>, f: Frontier, t: TileId, k: Label)
    requires ParetoFrontier(spots, f) && Spot(t, k) in spots
    ensures t in f && Spot(t, f[t][0]) in spots
    ensures k == f[t][0] || Before(f[t][0], k)
  {
    assert Covered(f, Spot(t, k));
    var l :| l in f[t] && Dominates(l, k);
    var i :| 0 <= i < |f[t]| && f[t][i] == l;
    assert f[t][0] in f[t];
  }

  /** A frontier's tiles are the reachable tiles and each list is headed by the tile's optimum. */
  lemma FrontierAnswers(p: Problem, f: Frontier)
    requires Priced(p.edges) && IsFrontier(p, f)
    ensures forall t :: t in f <==> Reachable(p, t)
    ensures forall t :: t in f ==> IsBest(p, t, f[t][0])
  {
    var spots := Attainable(p);
    forall t ensures t in f <==> Reachable(p, t) {
      if t in f {
        assert f[t][0] in f[t];
        assert Spot(t, f[t][0]) in spots;
      } else if l :| Attained(p, Spot(t, l)) {
        HeadIsBest(spots, f, t, l);
      }
    }
    forall t | t in f ensures IsBest(p, t, f[t][0]) {
      assert f[t][0] in f[t];
      assert Spot(t, f[t][0]) in spots;
      forall k | Attained(p, Spot(t, k)) ensures k == f[t][0] || Before(f[t][0], k) {
        HeadIsBest(spots, f, t, k);
      }
    }
  }

  // ----- The frontier is determined by the problem, not by the search order -----

  lemma KeptIsKept(spots: iset<Spot>, f: Frontier, g: Frontier, t: TileId, l: Label)
    requires ParetoFrontier(spots, f) && ParetoFrontier(spots, g)
    requires t in f && l in f[t]
    ensures t in g && l in g[t]
  {
    assert Covered(g, Spot(t, l));
    var k :| k in g[t] && Dominates(k, l);
    assert Covered(f, Spot(t, k));
    var m :| m in f[t] && Dominates(m, k);
    DominatedKept(f, t, m, l);
  }

  /** On one tile, no kept label dominates another. */
  lemma DominatedKept(f: Frontier, t: TileId, m: Label, l: Label)
    requires Shaped(f) && t in f && m in f[t] && l in f[t] && Dominates(m, l)
    ensures m == l
  {
    var i :| 0 <= i < |f[t]| && f[t][i] == l;
    var j :| 0 <= j < |f[t]| && f[t][j] == m;
  }

  lemma SameHead(a: seq<Label>, b: seq<Label>)
    requires Staircase(a) && Staircase(b) && a != []
    requires forall l :: l in a <==> l in b
    ensures b != [] && a[0] == b[0]
    ensures forall l :: l in a[1..] <==> l in b[1..]
  {
    assert a[0] in b;
    assert b[0] in a;
    var i :| 0 <= i < |b| && b[i] == a[0];
    var j :| 0 <= j < |a| && a[j] == b[0];
    assert i == j == 0;
    forall l ensures l in a[1..] <==> l in b[1..] {
      TailMember(a, l);
      TailMember(b, l);
    }
  }

  lemma TailMember(a: seq<Label>, l: Label)
    requires Staircase(a) && a != []
    ensures l in a[1..] <==> l in a && l != a[0]
  {
    if l in a[1..] {
      var i :| 0 <= i < |a[1..]| && a[1..][i] == l;
      assert a[0].ap > a[i + 1].ap;
    }
  }

  /** Two staircases with the same steps are the same list. */
  lemma {:induction false} StaircaseUnique(a: seq<Label>, b: seq<Label>)
    requires Staircase(a) && Staircase(b)
    requires forall l :: l in a <==> l in b
    ensures a == b
  {
    assert b != [] ==> b[0] in b;
    if a != [] {
      SameHead(a, b);
      StaircaseUnique(a[1..], b[1..]);
      assert a == [a[0]] + a[1..] && b == [b[0]] + b[1..];
    }
  }

  lemma ParetoUnique(spots: iset<Spot>, f: Frontier, g: Frontier)
    requires ParetoFrontier(spots, f) && ParetoFrontier(spots, g)
    ensures f.Keys == g.Keys && forall t :: t in f ==> f[t] == g[t]
  {
    forall t ensures t in f <==> t in g {
      if t in f {
        KeptIsKept(spots, f, g, t, f[t][0]);
      }
      if t in g {
        KeptIsKept(spots, g, f, t, g[t][0]);
      }
    }
    forall t | t in f ensures f[t] == g[t] {
      forall l ensures l in f[t] <==> l in g[t] {
        if l in f[t] {
          KeptIsKept(spots, f, g, t, l);
        }
        if l in g[t] {
          KeptIsKept(spots, g, f, t, l);
        }
      }
      StaircaseUnique(f[t], g[t]);
    }
  }

  /** Any two correct frontiers of one problem are equal: queue order and edge order cannot matter. */
  lemma FrontierUnique(p: Problem, f: Frontier, g: Frontier)
    requires Priced(p.edges) && IsFrontier(p, f) && IsFrontier(p, g)
    ensures f == g
  {
    ParetoUnique(Attainable(p), f, g);
  }

  // ----- No kept label needs a detour -----

  /** With no fatigue-recovering edge, every walk that attains a kept label stands on no tile twice. */
  lemma KeptWalksAreSimple(p: Problem, f: Frontier, w: seq<Edge>)
    requires Priced(p.edges) && Tiring(p.edges) && IsFrontier(p, f)
    requires Walk(p, w).Some? && Walk(p, w).value.tile in f
    requires Walk(p, w).value.res in f[Walk(p, w).value.tile]
    ensures Simple(p, w)
  {
    forall i, j | 0 <= i < j <= |w| ensures After(p, w, i).tile != After(p, w, j).tile {
      if After(p, w, i).tile == After(p, w, j).tile {
        CutDetour(p, w, i, j);
        NobodyAhead(Attainable(p), f, Walk(p, w).value, Walk(p, w[..i] + w[j..]).value);
      }
    }
  }

  /** Nothing attainable is strictly ahead of a kept label. */
  lemma NobodyAhead(spots: iset<Spot>, f: Frontier, end: Spot, better: Spot)
    requires ParetoFrontier(spots, f) && end.tile in f && end.res in f[end.tile]
    requires better in spots
    ensures !StrictlyAhead(better, end)
  {
    if StrictlyAhead(better, end) {
      assert Covered(f, better);
      var k :| k in f[end.tile] && Dominates(k, better.res);
      DominatedKept(f, end.tile, k, end.res);
    }
  }

  /** With no fatigue-recovering edge, the origin keeps exactly its starting label. */
  lemma OriginKeepsStart(p: Problem, f: Frontier)
    requires Priced(p.edges) && Tiring(p.edges) && IsFrontier(p, f)
    ensures p.origin in f && f[p.origin] == [p.start]
  {
    assert Walk(p, []) == Some(Spot(p.origin, p.start));
    HeadIsBest(Attainable(p), f, p.origin, p.start);
    forall l | l in f[p.origin] ensures l == p.start {
      assert Spot(p.origin, l) in Attainable(p);
      OriginLabel(p, f, l);
    }
    assert f[p.origin][0] in f[p.origin];
    SingletonStaircase(f[p.origin], p.start);
  }

  lemma SingletonStaircase(ls: seq<Label>, l: Label)
    requires Staircase(ls) && ls != [] && forall k :: k in ls ==> k == l
    ensures ls == [l]
  {
    assert ls[0] in ls && ls[|ls| - 1] in ls;
  }

  lemma OriginLabel(p: Problem, f: Frontier, l: Label)
    requires Priced(p.edges) && Tiring(p.edges) && IsFrontier(p, f)
    requires p.origin in f && l in f[p.origin] && Attained(p, Spot(p.origin, l))
    ensures l == p.start
  {
    var w :| Walk(p, w) == Some(Spot(p.origin, l));
    KeptWalksAreSimple(p, f, w);
    assert w[..|w|] == w && w[..0] == [];
    assert w != [] ==> After(p, w, 0).tile != After(p, w, |w|).tile;
  }

  // ----- Comparing runs -----

  /** `known'` says everything `known` says, and perhaps more. */
  predicate Extends(known': map<TileId, string>, known: map<TileId, string>) {
    forall t :: t in known ==> t in known' && known'[t] == known[t]
  }

  /** `a` starts with at least `b`'s AP and at most its fatigue, all else equal. */
  predicate BetterRested(a: Actor, b: Actor) {
    a.ap >= b.ap && a.fatigue <= b.fatigue && a == b.(ap := a.ap, fatigue := a.fatigue)
  }

  /** Knowing of fewer occupants, with whatever zone-of-control marks, leaves every usable edge in place. */
  lemma SamePrice(a: Actor, b: Actor, s: Tile, d: Tile, impassable: int)
    requires BetterRested(a, b)
    ensures StepCost(a, s, d, impassable) == StepCost(b, s, d, impassable)
  {
  }

  lemma LessKnownIsGenerous(w: World, v: World, edgesW: EdgeTable, edgesV: EdgeTable, originId: TileId)
    requires IsEdgeTable(w, edgesW) && IsEdgeTable(v, edgesV)
    requires v.tiles == w.tiles && v.impassable == w.impassable && BetterRested(w.actor, v.actor)
    requires Extends(v.occupancy, w.occupancy)
    ensures AtLeastAsGenerous(ProblemOf(edgesW, originId, w.actor), ProblemOf(edgesV, originId, v.actor))
  {
    forall t, e | e in Out(edgesV, t) && e.resolved ensures HasMatch(edgesW, t, e) {
      var d := DirectionOf(v, edgesV, t, e);
      var f := e.(zocPathPenalty := ExitPenalty(w, t));
      SamePrice(w.actor, v.actor, w.tiles[t], w.tiles[e.destination], w.impassable);
      assert LegalStep(v, t, d, e);
      assert LegalStep(w, t, d, f);
      LegalEdgeListed(w, edgesW, t, d, f);
    }
  }

  /** A tile reachable in the less generous problem is reachable, and no worse, in the more generous one. */
  lemma TileMonotone(p: Problem, q: Problem, t: TileId, best: Label) returns (l: Label)
    requires Priced(p.edges) && Priced(q.edges) && AtLeastAsGenerous(q, p)
    requires IsBest(p, t, best)
    ensures Attained(q, Spot(t, l)) && Reachable(q, t)
    ensures l == best || Before(l, best)
  {
    var u :| Walk(p, u) == Some(Spot(t, best));
    var x := GenerousWalk(q, p, u);
    l := Walk(q, x).value.res;
  }

  /** Extending known occupancy, or starting worse rested, never adds a reachable tile or improves an optimum. */
  lemma AnswersMonotone(w: World, v: World, originId: TileId, r: MovementGraphResult, s: MovementGraphResult)
    requires v.tiles == w.tiles && v.impassable == w.impassable && BetterRested(w.actor, v.actor)
    requires Extends(v.occupancy, w.occupancy)
    requires Answers(w, originId, r) && Answers(v, originId, s)
    ensures s.reachable <= r.reachable
    ensures forall t :: t in s.reachable ==>
              r.bestResources[t] == s.bestResources[t] || Before(r.bestResources[t], s.bestResources[t])
  {
    var p, q := ProblemOf(s.edges, originId, v.actor), ProblemOf(r.edges, originId, w.actor);
    LessKnownIsGenerous(w, v, r.edges, s.edges, originId);
    forall t | t in s.reachable
      ensures t in r.reachable
      ensures r.bestResources[t] == s.bestResources[t] || Before(r.bestResources[t], s.bestResources[t])
    {
      var l := TileMonotone(p, q, t, s.bestResources[t]);
    }
  }

  /** The actor never ends on a tile known to hold an ally, a hostile or a blocker, unless it stands there already. */
  lemma NoReachableOccupant(w: World, originId: TileId, r: MovementGraphResult, t: TileId)
    requires Answers(w, originId, r) && t in r.reachable && t != originId
    ensures Occupant(w, t) !in {Some("HOSTILE"), Some("BLOCKED"), Some("ALLY")}
  {
    var p := ProblemOf(r.edges, originId, w.actor);
    assert Reachable(p, t);
    var l :| Attained(p, Spot(t, l));
    var u :| Walk(p, u) == Some(Spot(t, l));
    var e, s := u[|u| - 1], Walk(p, u[..|u| - 1]).value;
    var d := DirectionOf(w, r.edges, s.tile, e);
  }

  // ----- Who can move at all -----

  lemma {:induction false} HeldWalksAreEmpty(p: Problem, w: seq<Edge>)
    requires Priced(p.edges) && p.frozen && Walk(p, w).Some?
    ensures w == []
  {
  }

  /** A rooted or stunned actor stays where it is, with what it has. */
  lemma HeldActorStays(w: World, originId: TileId, r: MovementGraphResult)
    requires Answers(w, originId, r) && (w.actor.rooted || w.actor.stunned)
    ensures r.reachable == {originId}
    ensures r.bestResources == map[originId := Label(w.actor.ap, w.actor.fatigue)]
  {
    var p := ProblemOf(r.edges, originId, w.actor);
    assert Walk(p, []) == Some(Spot(originId, p.start));
    assert Attained(p, Spot(originId, p.start));
    forall s | Attained(p, s) ensures s == Spot(originId, p.start) {
      var walk :| Walk(p, walk) == Some(s);
      HeldWalksAreEmpty(p, walk);
    }
    hide IsEdgeTable, Walk;
    assert Reachable(p, originId);
    forall t | t in r.reachable ensures t == originId {
      assert Reachable(p, t);
    }
    assert IsBest(p, originId, r.bestResources[originId]);
  }

  /** Any other actor reaches whatever a resolved edge that it can pay leads to from where it stands. */
  lemma FreeActorSteps(w: World, originId: TileId, r: MovementGraphResult, e: Edge)
    requires Answers(w, originId, r) && !w.actor.rooted && !w.actor.stunned
    requires originId in r.edges && e in r.edges[originId] && e.resolved
    requires e.apCost.Some? && e.apCost.value <= w.actor.ap as real
    requires e.fatigueCost.Some? && w.actor.fatigue as real + e.fatigueCost.value <= w.actor.fatigueMax as real
    ensures e.destination in r.reachable
  {
    var p := ProblemOf(r.edges, originId, w.actor);
    var l := Advance(p.fatigueMax, p.start, e).value;
    assert Walk(p, []) == Some(Spot(originId, p.start));
    assert Attained(p, Spot(originId, p.start));
    AttainedByStep(p, Spot(originId, p.start), e, l);
    assert Reachable(p, e.destination);
  }
}
