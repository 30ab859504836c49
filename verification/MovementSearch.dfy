/** The label-correcting search over (AP left, fatigue) pairs. */
module MovementSearch {
  import opened Common
  import opened MovementGraph
  import opened MovementWalks
  import Sorting

  type Frontier = map<TileId, seq<Label>>

  // ----- The Pareto frontier, stated without any search -----

  /** Strictly decreasing in AP and in fatigue: sorted, and nobody dominates anybody. */
  ghost predicate Staircase(ls: seq<Label>) {
    forall i, j :: 0 <= i < j < |ls| ==> ls[i].ap > ls[j].ap && ls[i].fatigue > ls[j].fatigue
  }

  ghost predicate Shaped(f: Frontier) {
    forall t :: t in f ==> f[t] != [] && Staircase(f[t])
  }

  ghost predicate Covered(f: Frontier, s: Spot) {
    s.tile in f && exists k :: k in f[s.tile] && Dominates(k, s.res)
  }

  /** `f` keeps, tile by tile, exactly the undominated members of `spots`. */
  ghost predicate ParetoFrontier(spots: iset<Spot>, f: Frontier) {
    && Shaped(f)
    && (forall t, l :: t in f && l in f[t] ==> Spot(t, l) in spots)
    && (forall s {:trigger Covered(f, s)} :: s in spots ==> Covered(f, s))
  }

  /** The spots that feasible walks end on. */
  ghost function Attainable(p: Problem): iset<Spot>
    requires Priced(p.edges)
  {
    iset s | Attained(p, s)
  }

  /** The kept labels are exactly the undominated resource states of the feasible walks. */
  ghost predicate IsFrontier(p: Problem, f: Frontier)
    requires Priced(p.edges)
  {
    ParetoFrontier(Attainable(p), f)
  }

  // ----- Keeping a tile's label list -----

  /** The sort key order: more AP first, then less fatigue. */
  predicate Before(a: Label, b: Label) {
    a.ap > b.ap || (a.ap == b.ap && a.fatigue < b.fatigue)
  }

  /** The stable sort by that key. */
  function SortLabels(ls: seq<Label>): seq<Label> {
    Sorting.SortBy(Before, ls)
  }

  /** The labels of `ls` that `c` does not dominate. */
  function Undominated(ls: seq<Label>, c: Label): seq<Label> {
    if ls == [] then []
    else
      var front := Undominated(ls[..|ls| - 1], c);
      if Dominates(c, ls[|ls| - 1]) then front else front + [ls[|ls| - 1]]
  }

  lemma {:induction false} UndominatedFacts(ls: seq<Label>, c: Label)
    requires Staircase(ls)
    ensures Staircase(Undominated(ls, c))
    ensures forall l :: l in Undominated(ls, c) <==> l in ls && !Dominates(c, l)
  {
    if ls != [] {
      var front, last := ls[..|ls| - 1], ls[|ls| - 1];
      UndominatedFacts(front, c);
      assert forall l :: l in ls <==> l in front || l == last;
      forall l | l in front ensures l.ap > last.ap && l.fatigue > last.fatigue {
        var m :| 0 <= m < |front| && front[m] == l;
        assert ls[m] == l;
      }
    }
  }

  lemma SortStaircase(ls: seq<Label>)
    requires Staircase(ls)
    ensures SortLabels(ls) == ls
  {
    Sorting.SortKeeps(Before, ls);
  }

  lemma {:induction false} InsertFacts(ls: seq<Label>, c: Label)
    requires Staircase(ls)
    requires forall l :: l in ls ==> !Dominates(c, l) && !Dominates(l, c)
    ensures Staircase(Sorting.InsertBy(Before, ls, c))
    ensures forall l :: l in Sorting.InsertBy(Before, ls, c) <==> l in ls || l == c
  {
    if ls != [] && Before(c, ls[|ls| - 1]) {
      var front, last := ls[..|ls| - 1], ls[|ls| - 1];
      InsertFacts(front, c);
      var ins := Sorting.InsertBy(Before, front, c);
      assert last in ls && c.ap > last.ap && c.fatigue > last.fatigue;
      forall i | 0 <= i < |ins| ensures ins[i].ap > last.ap && ins[i].fatigue > last.fatigue {
        assert ins[i] in ins;
        if ins[i] != c {
          var m :| 0 <= m < |front| && front[m] == ins[i];
          assert ls[m] == ins[i];
        }
      }
    } else if ls != [] {
      assert ls[|ls| - 1] in ls;
    }
  }

  /** A tile's list after accepting `c`: still a staircase, with `c` in and exactly its victims out. */
  lemma AcceptFacts(ls: seq<Label>, c: Label)
    requires Staircase(ls) && forall l :: l in ls ==> !Dominates(l, c)
    ensures Staircase(SortLabels(Undominated(ls, c) + [c]))
    ensures forall l :: l in SortLabels(Undominated(ls, c) + [c])
                        <==> l == c || (l in ls && !Dominates(c, l))
  {
    var kept := Undominated(ls, c);
    UndominatedFacts(ls, c);
    assert (kept + [c])[..|kept|] == kept;
    SortStaircase(kept);
    InsertFacts(kept, c);
  }

  // ----- The loop invariant -----

  /** The first `n` edges out of spot `s` lead nowhere that the frontier does not cover. */
  ghost predicate Settled(p: Problem, f: Frontier, s: Spot, n: nat)
    requires Priced(p.edges)
  {
    forall i :: 0 <= i < n && i < |Out(p.edges, s.tile)| ==> EdgeSettled(p, f, s, Out(p.edges, s.tile)[i])
  }

  ghost predicate EdgeSettled(p: Problem, f: Frontier, s: Spot, e: Edge)
    requires Priced(p.edges) && e in Out(p.edges, s.tile)
  {
    Advance(p.fatigueMax, s.res, e).Some? ==>
      Covered(f, Spot(e.destination, Advance(p.fatigueMax, s.res, e).value))
  }

  /**
   * Every kept label is still queued or has all its edges settled, except that the spot being
   * expanded, `cur`, is so far only settled up to `n`. Queue entries need not be kept any more.
   */
  ghost predicate Closed(p: Problem, f: Frontier, queue: seq<Spot>, cur: Spot, n: nat)
    requires Priced(p.edges)
  {
    forall t, l :: t in f && l in f[t] && Spot(t, l) !in queue ==>
      Settled(p, f, Spot(t, l), if Spot(t, l) == cur then n else |Out(p.edges, t)|)
  }

  /** All kept labels and all queue entries are among `spots`. */
  ghost predicate Within(spots: iset<Spot>, f: Frontier, queue: seq<Spot>) {
    && (forall t, l :: t in f && l in f[t] ==> Spot(t, l) in spots)
    && (forall s :: s in queue ==> s in spots)
  }

  ghost predicate Loop(p: Problem, spots: iset<Spot>, f: Frontier, queue: seq<Spot>, cur: Spot, n: nat)
    requires Priced(p.edges)
  {
    && Shaped(f)
    && Within(spots, f, queue)
    && Covered(f, Spot(p.origin, p.start))
    && Closed(p, f, queue, cur, n)
  }

  /** Accepting a label never uncovers anything. */
  lemma AcceptCovers(f: Frontier, t: TileId, c: Label, s: Spot)
    requires Shaped(f) && Covered(f, s)
    requires t in f ==> forall l :: l in f[t] ==> !Dominates(l, c)
    ensures Covered(Accept(f, t, c), s)
  {
    var ls := if t in f then f[t] else [];
    AcceptFacts(ls, c);
    var k :| k in f[s.tile] && Dominates(k, s.res);
    if s.tile == t && Dominates(c, k) {
      assert Dominates(c, s.res);
    }
  }

  /** The frontier after a new label `c` was accepted on tile `t`. */
  function Accept(f: Frontier, t: TileId, c: Label): Frontier {
    f[t := SortLabels(Undominated(if t in f then f[t] else [], c) + [c])]
  }

  lemma AcceptKeepsShape(f: Frontier, t: TileId, c: Label)
    requires Shaped(f) && (t in f ==> forall l :: l in f[t] ==> !Dominates(l, c))
    ensures Shaped(Accept(f, t, c)) && Covered(Accept(f, t, c), Spot(t, c))
    ensures forall u, l :: u in Accept(f, t, c) && l in Accept(f, t, c)[u] && Spot(u, l) != Spot(t, c)
                           ==> u in f && l in f[u]
    ensures forall s :: Covered(f, s) ==> Covered(Accept(f, t, c), s)
  {
    AcceptFacts(if t in f then f[t] else [], c);
    assert c in Accept(f, t, c)[t];
    forall s | Covered(f, s) ensures Covered(Accept(f, t, c), s) {
      AcceptCovers(f, t, c, s);
    }
  }

  lemma SettledMonotone(p: Problem, f: Frontier, g: Frontier, s: Spot, n: nat)
    requires Priced(p.edges) && Settled(p, f, s, n)
    requires forall x :: Covered(f, x) ==> Covered(g, x)
    ensures Settled(p, g, s, n)
  {
    forall i | 0 <= i < n && i < |Out(p.edges, s.tile)|
      ensures EdgeSettled(p, g, s, Out(p.edges, s.tile)[i])
    {
      assert EdgeSettled(p, f, s, Out(p.edges, s.tile)[i]);
    }
  }

  lemma AcceptKeepsLoop(p: Problem, spots: iset<Spot>, f: Frontier, queue: seq<Spot>, cur: Spot, n: nat, s: Spot)
    requires Priced(p.edges) && Loop(p, spots, f, queue, cur, n) && s in spots
    requires n < |Out(p.edges, cur.tile)| && Out(p.edges, cur.tile)[n].destination == s.tile
    requires Advance(p.fatigueMax, cur.res, Out(p.edges, cur.tile)[n]) == Some(s.res)
    requires s.tile in f ==> forall l :: l in f[s.tile] ==> !Dominates(l, s.res)
    ensures Loop(p, spots, Accept(f, s.tile, s.res), queue + [s], cur, n + 1)
  {
    AcceptKeepsShape(f, s.tile, s.res);
    AcceptKeepsClosed(p, f, queue, cur, n, s);
    AcceptKeepsWithin(spots, f, queue, s);
  }

  lemma AcceptKeepsWithin(spots: iset<Spot>, f: Frontier, queue: seq<Spot>, s: Spot)
    requires Shaped(f) && Within(spots, f, queue) && s in spots
    requires s.tile in f ==> forall l :: l in f[s.tile] ==> !Dominates(l, s.res)
    ensures Within(spots, Accept(f, s.tile, s.res), queue + [s])
  {
    AcceptKeepsShape(f, s.tile, s.res);
    var g := Accept(f, s.tile, s.res);
    forall u, l | u in g && l in g[u] ensures Spot(u, l) in spots {
      if Spot(u, l) != s {
        assert u in f && l in f[u];
      }
    }
  }

  lemma AcceptKeepsClosed(p: Problem, f: Frontier, queue: seq<Spot>, cur: Spot, n: nat, s: Spot)
    requires Priced(p.edges) && Shaped(f) && Closed(p, f, queue, cur, n)
    requires n < |Out(p.edges, cur.tile)| && Out(p.edges, cur.tile)[n].destination == s.tile
    requires Advance(p.fatigueMax, cur.res, Out(p.edges, cur.tile)[n]) == Some(s.res)
    requires s.tile in f ==> forall l :: l in f[s.tile] ==> !Dominates(l, s.res)
    ensures Closed(p, Accept(f, s.tile, s.res), queue + [s], cur, n + 1)
  {
    var g := Accept(f, s.tile, s.res);
    AcceptKeepsShape(f, s.tile, s.res);
    forall u, l | u in g && l in g[u] && Spot(u, l) !in queue + [s]
      ensures Settled(p, g, Spot(u, l), if Spot(u, l) == cur then n + 1 else |Out(p.edges, u)|)
    {
      assert (queue + [s])[|queue|] == s;
      assert Spot(u, l) !in queue;
      SettledMonotone(p, f, g, Spot(u, l), if Spot(u, l) == cur then n else |Out(p.edges, u)|);
      assert Spot(u, l) == cur ==> EdgeSettled(p, g, cur, Out(p.edges, cur.tile)[n]);
    }
  }

  lemma SkipKeepsLoop(p: Problem, spots: iset<Spot>, f: Frontier, queue: seq<Spot>, cur: Spot, n: nat)
    requires Priced(p.edges) && Loop(p, spots, f, queue, cur, n)
    requires n < |Out(p.edges, cur.tile)| && EdgeSettled(p, f, cur, Out(p.edges, cur.tile)[n])
    ensures Loop(p, spots, f, queue, cur, n + 1)
  {
  }

  /** With nothing queued, what is kept covers everything that is attained. */
  lemma {:induction false} LoopEndsComplete(p: Problem, spots: iset<Spot>, f: Frontier, cur: Spot, w: seq<Edge>)
    requires Priced(p.edges) && Loop(p, spots, f, [], cur, |Out(p.edges, cur.tile)|)
    requires Walk(p, w).Some?
    ensures Covered(f, Walk(p, w).value)
    decreases |w|
  {
    if w != [] {
      var front, e := w[..|w| - 1], w[|w| - 1];
      LoopEndsComplete(p, spots, f, cur, front);
      var s := Walk(p, front).value;
      var k :| k in f[s.tile] && Dominates(k, s.res);
      var i :| 0 <= i < |Out(p.edges, s.tile)| && Out(p.edges, s.tile)[i] == e;
      assert Settled(p, f, Spot(s.tile, k), |Out(p.edges, s.tile)|);
      assert EdgeSettled(p, f, Spot(s.tile, k), e);
      StepMonotone(p.fatigueMax, p.fatigueMax, k, s.res, e);
    }
  }

  /** Every affordable step from `cur` lands in `spots`. */
  ghost predicate StepsInto(p: Problem, cur: Spot, spots: iset<Spot>)
    requires Priced(p.edges)
  {
    forall e :: e in Out(p.edges, cur.tile) && Advance(p.fatigueMax, cur.res, e).Some? ==>
      Spot(e.destination, Advance(p.fatigueMax, cur.res, e).value) in spots
  }

  lemma StepsStayAttainable(p: Problem, cur: Spot)
    requires Priced(p.edges) && !p.frozen && cur in Attainable(p)
    ensures StepsInto(p, cur, Attainable(p))
  {
    forall e | e in Out(p.edges, cur.tile) && Advance(p.fatigueMax, cur.res, e).Some?
      ensures Spot(e.destination, Advance(p.fatigueMax, cur.res, e).value) in Attainable(p)
    {
      AttainedByStep(p, cur, e, Advance(p.fatigueMax, cur.res, e).value);
    }
  }

  /** Popping the first entry leaves only that spot possibly unsettled, kept or stale. */
  lemma PopKeepsLoop(p: Problem, spots: iset<Spot>, f: Frontier, queue: seq<Spot>, last: Spot)
    requires Priced(p.edges) && queue != []
    requires Loop(p, spots, f, queue, last, |Out(p.edges, last.tile)|)
    ensures Loop(p, spots, f, queue[1..], queue[0], 0) && queue[0] in spots
  {
    forall i | 0 < i < |queue| ensures queue[i] in queue[1..] {
      assert queue[1..][i - 1] == queue[i];
    }
  }

  lemma LoopEndsFrontier(p: Problem, f: Frontier, cur: Spot)
    requires Priced(p.edges) && Loop(p, Attainable(p), f, [], cur, |Out(p.edges, cur.tile)|)
    ensures IsFrontier(p, f)
  {
    forall s | s in Attainable(p) ensures Covered(f, s) {
      var w :| Walk(p, w) == Some(s);
      LoopEndsComplete(p, Attainable(p), f, cur, w);
    }
  }

  lemma LoopStarts(p: Problem, f: Frontier, queue: seq<Spot>)
    requires Priced(p.edges)
    requires f == map[p.origin := [p.start]] && queue == [Spot(p.origin, p.start)]
    ensures Loop(p, Attainable(p), f, queue, queue[0], |Out(p.edges, p.origin)|)
  {
    assert Walk(p, []) == Some(queue[0]);
    assert p.start in f[p.origin];
  }

  // ----- Termination -----

  /** How many queue entries a label with `ap` left can account for when no tile has more than `d` edges. */
  function Work(ap: int, d: nat): nat
    decreases if ap < 0 then 0 else ap
  {
    if ap <= 0 then 1 else 1 + d * Work(ap - 1, d)
  }

  function QueueWork(queue: seq<Spot>, d: nat): nat {
    if queue == [] then 0 else Work(queue[0].res.ap, d) + QueueWork(queue[1..], d)
  }

  lemma {:induction false} WorkMonotone(a: int, b: int, d: nat)
    requires a <= b && d >= 1
    ensures Work(a, d) <= Work(b, d)
    decreases if b < 0 then 0 else b
  {
    if a < b && b > 0 {
      WorkMonotone(a, b - 1, d);
      assert d * Work(b - 1, d) >= 1 * Work(b - 1, d);
    }
  }

  lemma {:induction false} QueueWorkAppend(queue: seq<Spot>, s: Spot, d: nat)
    ensures QueueWork(queue + [s], d) == QueueWork(queue, d) + Work(s.res.ap, d)
  {
    if queue != [] {
      assert (queue + [s])[1..] == queue[1..] + [s];
      QueueWorkAppend(queue[1..], s, d);
    } else {
      assert (queue + [s])[1..] == [];
    }
  }

  lemma {:induction false} DegreeBound(edges: EdgeTable, ts: set<TileId>) returns (d: nat)
    requires ts <= edges.Keys
    ensures d >= 1 && forall t :: t in ts ==> |edges[t]| <= d
  {
    if ts == {} {
      d := 1;
    } else {
      var t :| t in ts;
      d := DegreeBound(edges, ts - {t});
      d := if |edges[t]| > d then |edges[t]| else d;
    }
  }

  /** What expanding the edges from `n` on may still add to the queue. */
  function Budget(p: Problem, cur: Spot, n: nat, d: nat): nat
    requires n <= |Out(p.edges, cur.tile)|
  {
    if cur.res.ap <= 0 then 0 else (|Out(p.edges, cur.tile)| - n) * Work(cur.res.ap - 1, d)
  }

  lemma BudgetStep(p: Problem, cur: Spot, n: nat, d: nat)
    requires n < |Out(p.edges, cur.tile)|
    ensures cur.res.ap > 0 ==> Budget(p, cur, n, d) == Budget(p, cur, n + 1, d) + Work(cur.res.ap - 1, d)
    ensures Budget(p, cur, n + 1, d) <= Budget(p, cur, n, d)
  {
    var m, k := |Out(p.edges, cur.tile)| - n, Work(cur.res.ap - 1, d);
    assert m * k == (m - 1) * k + k;
  }

  lemma BudgetStart(p: Problem, cur: Spot, d: nat)
    requires |Out(p.edges, cur.tile)| <= d
    ensures Budget(p, cur, 0, d) < Work(cur.res.ap, d)
  {
    if cur.res.ap > 0 {
      var m, k := |Out(p.edges, cur.tile)|, Work(cur.res.ap - 1, d);
      assert m * k <= d * k;
    }
  }

  // ----- The search -----

  /** An actor that cannot move has the single frontier label it starts with. */
  lemma FrozenFrontier(p: Problem)
    requires Priced(p.edges) && p.frozen
    ensures IsFrontier(p, map[p.origin := [p.start]])
  {
    var f := map[p.origin := [p.start]];
    assert Walk(p, []) == Some(Spot(p.origin, p.start));
    assert p.start in f[p.origin];
    forall s | s in Attainable(p) ensures Covered(f, s) {
      var w :| Walk(p, w) == Some(s);
    }
  }

  function ProblemOf(edges: EdgeTable, originId: TileId, actor: Actor): Problem {
    Problem(edges, originId, Label(actor.ap, actor.fatigue), actor.fatigueMax, actor.rooted || actor.stunned)
  }

  function Min(a: int, b: int): int {
    if a <= b then a else b
  }

  /** The tiles of the frontier `f`, and the head of each tile's list. */
  ghost predicate HeadsOf(p: Problem, f: Frontier, reachable: set<TileId>, best: map<TileId, Label>)
    requires Priced(p.edges)
  {
    IsFrontier(p, f) && reachable == f.Keys == best.Keys && forall t :: t in best ==> best[t] == f[t][0]
  }

  method ReachableResources(edges: EdgeTable, originId: TileId, actor: Actor)
    returns (reachable: set<TileId>, best: map<TileId, Label>)
    requires Priced(edges)
    ensures exists f :: HeadsOf(ProblemOf(edges, originId, actor), f, reachable, best)
  {
    ghost var p := ProblemOf(edges, originId, actor);
    var start := Label(actor.ap, actor.fatigue);
    if actor.rooted || actor.stunned {
      FrozenFrontier(p);
      reachable, best := {originId}, map[originId := start];
      assert HeadsOf(p, map[originId := [start]], reachable, best);
      return;
    }
    var kept := SearchLabels(edges, originId, actor);
    best := map[];
    var todo := kept.Keys;
    while todo != {}
      invariant todo <= kept.Keys && best.Keys == kept.Keys - todo
      invariant forall t :: t in best ==> best[t] == kept[t][0]
      decreases todo
    {
      var t :| t in todo;
      SortStaircase(kept[t]);
      best := best[t := SortLabels(kept[t])[0]];
      todo := todo - {t};
    }
    reachable := kept.Keys;
    assert HeadsOf(p, kept, reachable, best);
  }

  method SearchLabels(edges: EdgeTable, originId: TileId, actor: Actor) returns (labels: Frontier)
    requires Priced(edges) && !actor.rooted && !actor.stunned
    ensures IsFrontier(ProblemOf(edges, originId, actor), labels)
  {
    ghost var p := ProblemOf(edges, originId, actor);
    ghost var d := DegreeBound(edges, edges.Keys);
    ghost var spots := Attainable(p);
    labels := map[originId := [Label(actor.ap, actor.fatigue)]];
    var queue := [Spot(originId, Label(actor.ap, actor.fatigue))];
    ghost var last := queue[0];
    LoopStarts(p, labels, queue);
    while queue != []
      invariant Loop(p, spots, labels, queue, last, |Out(edges, last.tile)|)
      decreases QueueWork(queue, d)
    {
      var cur := queue[0];
      PopKeepsLoop(p, spots, labels, queue, last);
      StepsStayAttainable(p, cur);
      last := cur;
      labels, queue := ExpandSpot(actor, cur, Out(edges, cur.tile), labels, queue[1..], p, spots, d);
    }
    LoopEndsFrontier(p, labels, last);
  }

  /** The inner loop: try every edge out of the popped spot `cur`. */
  method ExpandSpot(actor: Actor, cur: Spot, out: seq<Edge>, labels: Frontier, queue: seq<Spot>,
                    ghost p: Problem, ghost spots: iset<Spot>, ghost d: nat)
    returns (labels': Frontier, queue': seq<Spot>)
    requires Priced(p.edges) && !p.frozen && p.fatigueMax == actor.fatigueMax && d >= 1
    requires out == Out(p.edges, cur.tile) && |out| <= d && StepsInto(p, cur, spots)
    requires Loop(p, spots, labels, queue, cur, 0)
    ensures Loop(p, spots, labels', queue', cur, |out|)
    ensures QueueWork(queue', d) < QueueWork(queue, d) + Work(cur.res.ap, d)
  {
    labels', queue' := labels, queue;
    BudgetStart(p, cur, d);
    for i := 0 to |out|
      invariant Loop(p, spots, labels', queue', cur, i)
      invariant QueueWork(queue', d) + Budget(p, cur, i, d) <= QueueWork(queue, d) + Budget(p, cur, 0, d)
    {
      labels', queue' := RelaxEdge(actor, cur, out[i], labels', queue', p, spots, i, d);
    }
  }

  /** Trying the `n`-th edge out of `cur` keeps the loop going and pays for what it queued out of the budget. */
  ghost predicate Relaxed(p: Problem, spots: iset<Spot>, cur: Spot, n: nat, d: nat, queue: seq<Spot>,
                          f: Frontier, queue': seq<Spot>)
    requires Priced(p.edges) && n < |Out(p.edges, cur.tile)|
  {
    && Loop(p, spots, f, queue', cur, n + 1)
    && QueueWork(queue', d) + Budget(p, cur, n + 1, d) <= QueueWork(queue, d) + Budget(p, cur, n, d)
  }

  lemma RelaxSkips(p: Problem, spots: iset<Spot>, f: Frontier, queue: seq<Spot>, cur: Spot, n: nat, d: nat)
    requires Priced(p.edges) && Loop(p, spots, f, queue, cur, n) && n < |Out(p.edges, cur.tile)|
    requires EdgeSettled(p, f, cur, Out(p.edges, cur.tile)[n])
    ensures Relaxed(p, spots, cur, n, d, queue, f, queue)
  {
    SkipKeepsLoop(p, spots, f, queue, cur, n);
    BudgetStep(p, cur, n, d);
  }

  lemma RelaxAccepts(p: Problem, spots: iset<Spot>, f: Frontier, queue: seq<Spot>, cur: Spot, n: nat, s: Spot, d: nat)
    requires Priced(p.edges) && Loop(p, spots, f, queue, cur, n) && d >= 1
    requires n < |Out(p.edges, cur.tile)| && Out(p.edges, cur.tile)[n].destination == s.tile
    requires Advance(p.fatigueMax, cur.res, Out(p.edges, cur.tile)[n]) == Some(s.res)
    requires StepsInto(p, cur, spots)
    requires s.tile in f ==> forall l :: l in f[s.tile] ==> !Dominates(l, s.res)
    ensures Relaxed(p, spots, cur, n, d, queue, Accept(f, s.tile, s.res), queue + [s])
  {
    StepFacts(p.fatigueMax, cur.res, Out(p.edges, cur.tile)[n]);
    AcceptKeepsLoop(p, spots, f, queue, cur, n, s);
    BudgetStep(p, cur, n, d);
    WorkMonotone(s.res.ap, cur.res.ap - 1, d);
    QueueWorkAppend(queue, s, d);
  }

  /** The inner loop's body: try one edge, the `i`-th out of the spot `cur`. */
  method RelaxEdge(actor: Actor, cur: Spot, edge: Edge, labels: Frontier, queue: seq<Spot>,
                   ghost p: Problem, ghost spots: iset<Spot>, ghost i: nat, ghost d: nat)
    returns (labels': Frontier, queue': seq<Spot>)
    requires Priced(p.edges) && !p.frozen && p.fatigueMax == actor.fatigueMax && d >= 1
    requires Loop(p, spots, labels, queue, cur, i)
    requires i < |Out(p.edges, cur.tile)| && edge == Out(p.edges, cur.tile)[i]
    requires StepsInto(p, cur, spots)
    ensures Relaxed(p, spots, cur, i, d, queue, labels', queue')
  {
    if !edge.resolved
       || cur.res.ap as real < edge.apCost.value
       || cur.res.fatigue as real + edge.fatigueCost.value > actor.fatigueMax as real {
      RelaxSkips(p, spots, labels, queue, cur, i, d);
      return labels, queue;
    }
    StepFacts(actor.fatigueMax, cur.res, edge);
    var nextAp := BBRound(cur.res.ap as real - edge.apCost.value);
    var nextFatigue := Min(actor.fatigueMax, BBRound(cur.res.fatigue as real + edge.fatigueCost.value));
    var candidate := Label(nextAp, nextFatigue);
    var existing := if edge.destination in labels then labels[edge.destination] else [];
    if exists l :: l in existing && Dominates(l, candidate) {
      RelaxSkips(p, spots, labels, queue, cur, i, d);
      return labels, queue;
    }
    RelaxAccepts(p, spots, labels, queue, cur, i, Spot(edge.destination, candidate), d);
    labels' := labels[edge.destination := SortLabels(Undominated(existing, candidate) + [candidate])];
    queue' := queue + [Spot(edge.destination, candidate)];
  }
}
