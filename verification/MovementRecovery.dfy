/** What the sign of the fatigue multiplier decides: whether the origin keeps just its starting label. */
module MovementRecovery {
  import opened Common
  import opened MovementGraph
  import opened MovementWalks
  import opened MovementSearch
  import opened MovementResults

  /** In every world with this fatigue multiplier, and from every origin, the origin keeps just its starting label. */
  ghost predicate OriginAlwaysKept(mult: real) {
    forall w, edges, origin, f | HasFrontier(w, edges, origin, f) && w.actor.fatigueEffectMult == mult ::
      origin in f && f[origin] == [Label(w.actor.ap, w.actor.fatigue)]
  }

  /** `edges` is the edge table of `w`, and `f` the frontier of the search in it. */
  ghost predicate HasFrontier(w: World, edges: EdgeTable, origin: TileId, f: Frontier) {
    IsEdgeTable(w, edges) && Priced(edges) && IsFrontier(ProblemOf(edges, origin, w.actor), f)
  }

  // ----- Two tiles, and a step between them that gives back one point of fatigue -----

  function Recoverer(mult: real): Actor
    requires mult < 0.0
  {
    Actor(2, 10, 100, [1.0], [-1.0 / mult], 0.0, 0.0, 0.0, 1, mult, false, false)
  }

  function TwoTiles(mult: real): World
    requires mult < 0.0
  {
    World(map["a" := Tile("a", 0, 0, [Some("b"), None, None, None, None, None]),
              "b" := Tile("b", 0, 0, [None, None, None, Some("a"), None, None])],
          Recoverer(mult), map[], {}, -1)
  }

  const THERE := Edge("a", "b", Step, None, Some(1.0), Some(-1.0), 0, true)
  const BACK := Edge("b", "a", Step, None, Some(1.0), Some(-1.0), 0, true)
  const EDGES: EdgeTable := map["a" := [THERE], "b" := [BACK]]
  const RECOVERING := Problem(EDGES, "a", Label(2, 10), 100, false)
  const FRONTIER: Frontier := map["a" := [Label(2, 10), Label(0, 8)], "b" := [Label(1, 9)]]

  lemma Cancels(mult: real)
    requires mult < 0.0
    ensures Scaled(-1.0 / mult, mult) == -1.0 && -1.0 / mult >= 0.0
  {
  }

  lemma TwoTilesCosts(mult: real)
    requires mult < 0.0
    ensures var w := TwoTiles(mult);
            && StepCost(w.actor, w.tiles["a"], w.tiles["b"], w.impassable) == Some((1.0, -1.0))
            && StepCost(w.actor, w.tiles["b"], w.tiles["a"], w.impassable) == Some((1.0, -1.0))
  {
    Cancels(mult);
  }

  lemma TwoTilesSteps(mult: real)
    requires mult < 0.0
    ensures LegalStep(TwoTiles(mult), "a", 0, THERE) && LegalStep(TwoTiles(mult), "b", 3, BACK)
  {
    TwoTilesCosts(mult);
  }

  lemma EdgesPriced()
    ensures Priced(EDGES)
  {
  }

  lemma TwoTilesOut(mult: real)
    requires mult < 0.0
    ensures OutgoingOf(TwoTiles(mult), "a", [THERE]) && OutgoingOf(TwoTiles(mult), "b", [BACK])
  {
    TwoTilesSteps(mult);
    hide LegalStep;
    OneWayOut(TwoTiles(mult), "a", 0, THERE);
    OneWayOut(TwoTiles(mult), "b", 3, BACK);
  }

  lemma TwoTilesEdges(mult: real)
    requires mult < 0.0
    ensures IsEdgeTable(TwoTiles(mult), EDGES) && Priced(EDGES)
  {
    TwoTilesOut(mult);
    hide OutgoingOf;
    assert TwoTiles(mult).tiles.Keys == EDGES.Keys;
    EdgesPriced();
  }

  /** The step along the only link of `t` is all that leaves `t`. */
  lemma OneWayOut(w: World, t: TileId, d: nat, e: Edge)
    requires t in w.tiles && LegalStep(w, t, d, e)
    requires forall n: nat :: n < |w.tiles[t].neighbors| ==> (w.tiles[t].neighbors[n].Some? <==> n == d)
    ensures OutgoingOf(w, t, [e])
  {
    assert Lists(w, t, |w.tiles[t].neighbors|, [e], [d]);
  }

  /** Where `n` steps back and forth lead. */
  function Stand(n: nat): Spot
    requires n <= 2
  {
    if n == 0 then Spot("a", Label(2, 10)) else if n == 1 then Spot("b", Label(1, 9)) else Spot("a", Label(0, 8))
  }

  lemma {:induction false} OnlyBackAndForth(w: seq<Edge>)
    requires Priced(EDGES) && Walk(RECOVERING, w).Some?
    ensures |w| <= 2 && Walk(RECOVERING, w).value == Stand(|w|)
  {
    if w != [] {
      OnlyBackAndForth(w[..|w| - 1]);
    }
  }

  lemma BackAndForth()
    requires Priced(EDGES)
    ensures forall n: nat :: n <= 2 ==> Attained(RECOVERING, Stand(n))
  {
    assert Walk(RECOVERING, []) == Some(Stand(0));
    assert THERE in Out(EDGES, "a") && BACK in Out(EDGES, "b");
    WalkExtend(RECOVERING, [], THERE);
    assert Walk(RECOVERING, [] + [THERE]) == Some(Stand(1));
    WalkExtend(RECOVERING, [] + [THERE], BACK);
    assert Walk(RECOVERING, [] + [THERE] + [BACK]) == Some(Stand(2));
  }

  /** The spots of the frontier, one by one. */
  lemma FrontierStands(t: TileId, l: Label)
    ensures t in FRONTIER && l in FRONTIER[t] <==> exists n: nat :: n <= 2 && Stand(n) == Spot(t, l)
  {
    assert Stand(0) == Spot("a", Label(2, 10));
    assert Stand(1) == Spot("b", Label(1, 9));
    assert Stand(2) == Spot("a", Label(0, 8));
  }

  lemma FrontierCovers(s: Spot)
    requires Priced(EDGES) && Attained(RECOVERING, s)
    ensures Covered(FRONTIER, s)
  {
    var w :| Walk(RECOVERING, w) == Some(s);
    OnlyBackAndForth(w);
    FrontierStands(s.tile, s.res);
    assert Dominates(s.res, s.res);
  }

  lemma RecoveringFrontier()
    requires Priced(EDGES)
    ensures IsFrontier(RECOVERING, FRONTIER)
  {
    var spots := Attainable(RECOVERING);
    forall t, l | t in FRONTIER && l in FRONTIER[t] ensures Spot(t, l) in spots {
      FrontierStands(t, l);
      BackAndForth();
    }
    forall s | s in spots ensures Covered(FRONTIER, s) {
      FrontierCovers(s);
    }
    FrontierShaped();
    assert ParetoFrontier(spots, FRONTIER);
  }

  lemma FrontierShaped()
    ensures Shaped(FRONTIER)
  {
    assert Staircase(FRONTIER["a"]) && Staircase(FRONTIER["b"]);
  }

  /** A negative multiplier, however small, has a world in which a detour adds a label to the origin. */
  lemma RecoveringDetour(mult: real)
    requires mult < 0.0
    ensures TwoTiles(mult).actor.fatigueEffectMult == mult && HasFrontier(TwoTiles(mult), EDGES, "a", FRONTIER)
    ensures "a" in FRONTIER && FRONTIER["a"] != [Label(2, 10)]
  {
    TwoTilesEdges(mult);
    RecoveringFrontier();
    assert ProblemOf(EDGES, "a", Recoverer(mult)) == RECOVERING;
    assert |FRONTIER["a"]| == 2;
  }

  /**
   * The origin keeps just its starting label, in every world and from every origin, exactly if the
   * multiplier is not negative.
   */
  lemma MultiplierDecides(mult: real)
    ensures OriginAlwaysKept(mult) <==> mult >= 0.0
  {
    if mult >= 0.0 {
      forall w, edges, origin, f | HasFrontier(w, edges, origin, f) && w.actor.fatigueEffectMult == mult
        ensures origin in f && f[origin] == [Label(w.actor.ap, w.actor.fatigue)]
      {
        EdgeTableIsPriced(w, edges);
        OriginKeepsStart(ProblemOf(edges, origin, w.actor), f);
      }
    } else {
      RecoveringDetour(mult);
    }
  }

  // ----- Walks that repeat a tile -----

  ghost predicate SimplyAttained(p: Problem, s: Spot)
    requires Priced(p.edges)
  {
    exists u :: Walk(p, u) == Some(s) && Simple(p, u)
  }

  /** In every world with this multiplier, every kept label is attained by some walk that visits no tile twice. */
  ghost predicate NoTileRepeated(mult: real) {
    forall w, edges, origin, f | HasFrontier(w, edges, origin, f) && w.actor.fatigueEffectMult == mult ::
      forall t, l :: t in f && l in f[t] ==> SimplyAttained(ProblemOf(edges, origin, w.actor), Spot(t, l))
  }

  /** The label that the way there and back adds to the origin is attained by no other walk. */
  lemma DetourRepeats()
    requires Priced(EDGES)
    ensures !SimplyAttained(RECOVERING, Spot("a", Label(0, 8)))
  {
    forall u | Walk(RECOVERING, u) == Some(Spot("a", Label(0, 8))) ensures !Simple(RECOVERING, u) {
      OnlyBackAndForth(u);
      assert |u| == 2;
      assert u[..0] == [] && u[..2] == u;
      assert After(RECOVERING, u, 0).tile == "a" == After(RECOVERING, u, 2).tile;
    }
  }

  lemma TiringIsSimple(w: World, edges: EdgeTable, origin: TileId, f: Frontier, t: TileId, l: Label)
    requires HasFrontier(w, edges, origin, f) && w.actor.fatigueEffectMult >= 0.0 && t in f && l in f[t]
    ensures SimplyAttained(ProblemOf(edges, origin, w.actor), Spot(t, l))
  {
    var p := ProblemOf(edges, origin, w.actor);
    EdgeTableIsPriced(w, edges);
    assert Spot(t, l) in Attainable(p);
    var u :| Walk(p, u) == Some(Spot(t, l));
    KeptWalksAreSimple(p, f, u);
  }

  /**
   * Walks that visit no tile twice attain all kept labels, in every world, exactly if the multiplier is
   * not negative.
   */
  lemma MultiplierDecidesSimplicity(mult: real)
    ensures NoTileRepeated(mult) <==> mult >= 0.0
  {
    if mult >= 0.0 {
      forall w, edges, origin, f | HasFrontier(w, edges, origin, f) && w.actor.fatigueEffectMult == mult
        ensures forall t, l :: t in f && l in f[t] ==> SimplyAttained(ProblemOf(edges, origin, w.actor), Spot(t, l))
      {
        forall t, l | t in f && l in f[t] ensures SimplyAttained(ProblemOf(edges, origin, w.actor), Spot(t, l)) {
          TiringIsSimple(w, edges, origin, f, t, l);
        }
      }
    } else {
      RecoveringDetour(mult);
      DetourRepeats();
      assert ProblemOf(EDGES, "a", Recoverer(mult)) == RECOVERING;
      assert Label(0, 8) in FRONTIER["a"];
    }
  }
}
