/** What the search must agree with: every resource-feasible walk, taken step by step. */
module MovementWalks {
  import opened Common
  import opened MovementGraph

  datatype Label = Label(ap: int, fatigue: int)

  /** A walker's situation: where it stands and what it has left. */
  datatype Spot = Spot(tile: TileId, res: Label)

  /** One search problem. A `frozen` actor (rooted or stunned) takes no step. */
  datatype Problem = Problem(
    edges: EdgeTable, origin: TileId, start: Label, fatigueMax: int, frozen: bool)

  predicate Dominates(left: Label, right: Label) {
    left.ap >= right.ap && left.fatigue <= right.fatigue
  }

  function Out(edges: EdgeTable, t: TileId): seq<Edge> {
    if t in edges then edges[t] else []
  }

  /** The resources after one affordable resolved edge, each rounded on its own. */
  function Advance(fatigueMax: int, l: Label, e: Edge): Option<Label>
    requires e.resolved ==> e.apCost.Some? && e.fatigueCost.Some?
  {
    if e.resolved && l.ap as real >= e.apCost.value && l.fatigue as real + e.fatigueCost.value <= fatigueMax as real
    then Some(Label(BBRound(l.ap as real - e.apCost.value), BBRound(l.fatigue as real + e.fatigueCost.value)))
    else None
  }

  /** Where the walk `w` from the origin ends, or None when some step of it is not allowed. */
  function Walk(p: Problem, w: seq<Edge>): Option<Spot>
    requires Priced(p.edges)
  {
    if w == [] then Some(Spot(p.origin, p.start))
    else
      var e := w[|w| - 1];
      match Walk(p, w[..|w| - 1])
      case None => None
      case Some(s) =>
        if p.frozen || e !in Out(p.edges, s.tile) then None
        else match Advance(p.fatigueMax, s.res, e)
          case None => None
          case Some(l) => Some(Spot(e.destination, l))
  }

  ghost predicate Attained(p: Problem, s: Spot)
    requires Priced(p.edges)
  {
    exists w :: Walk(p, w) == Some(s)
  }

  lemma AttainedByStep(p: Problem, s: Spot, e: Edge, l: Label)
    requires Priced(p.edges) && Attained(p, s) && !p.frozen
    requires e in Out(p.edges, s.tile) && Advance(p.fatigueMax, s.res, e) == Some(l)
    ensures Attained(p, Spot(e.destination, l))
  {
    var w :| Walk(p, w) == Some(s);
    WalkExtend(p, w, e);
  }

  // ----- One step: rounding and dominance -----

  /** The whole number of AP a price takes off, whatever the walker holds. */
  function ApTaken(price: real): int {
    -BBRound(-price)
  }

  /** A step takes the same AP off every label, at least 1, and never below 0; the fatigue clamp is idle. */
  lemma StepFacts(fatigueMax: int, l: Label, e: Edge)
    requires e.resolved && e.apCost.Some? && e.fatigueCost.Some? && e.apCost.value >= 1.0
    requires Advance(fatigueMax, l, e).Some?
    ensures Advance(fatigueMax, l, e).value.ap == l.ap - ApTaken(e.apCost.value)
    ensures ApTaken(e.apCost.value) >= 1
    ensures 0 <= Advance(fatigueMax, l, e).value.ap < l.ap
    ensures Advance(fatigueMax, l, e).value.fatigue <= fatigueMax
    ensures e.fatigueCost.value >= 0.0 ==> l.fatigue <= Advance(fatigueMax, l, e).value.fatigue
  {
  }

  /** A better-off walker can take every step a worse-off one can, and stays better off. */
  lemma StepMonotone(m0: int, m1: int, l: Label, r: Label, e: Edge)
    requires m0 <= m1 && Dominates(l, r)
    requires e.resolved ==> e.apCost.Some? && e.fatigueCost.Some?
    requires Advance(m0, r, e).Some?
    ensures Advance(m1, l, e).Some?
    ensures Dominates(Advance(m1, l, e).value, Advance(m0, r, e).value)
    ensures l.ap > r.ap ==> Advance(m1, l, e).value.ap > Advance(m0, r, e).value.ap
  {
  }

  // ----- Walks: spending and cutting out a detour -----

  lemma {:induction false} WalkPrefix(p: Problem, w: seq<Edge>, i: nat)
    requires Priced(p.edges) && Walk(p, w).Some? && i <= |w|
    ensures Walk(p, w[..i]).Some?
  {
    if i < |w| {
      assert w[..|w| - 1][..i] == w[..i];
      WalkPrefix(p, w[..|w| - 1], i);
    } else {
      assert w[..i] == w;
    }
  }

  /** The spot a walk has reached after `i` of its steps. */
  function After(p: Problem, w: seq<Edge>, i: nat): Spot
    requires Priced(p.edges) && Walk(p, w).Some? && i <= |w|
  {
    WalkPrefix(p, w, i);
    Walk(p, w[..i]).value
  }

  lemma AfterStep(p: Problem, w: seq<Edge>, k: nat)
    requires Priced(p.edges) && Walk(p, w).Some? && 1 <= k <= |w|
    ensures !p.frozen && w[k - 1] in Out(p.edges, After(p, w, k - 1).tile)
    ensures After(p, w, k).tile == w[k - 1].destination
    ensures Advance(p.fatigueMax, After(p, w, k - 1).res, w[k - 1]) == Some(After(p, w, k).res)
  {
    WalkPrefix(p, w, k);
    assert w[..k][..k - 1] == w[..k - 1] && w[..k][k - 1] == w[k - 1];
  }

  lemma WalkExtend(p: Problem, v: seq<Edge>, e: Edge)
    requires Priced(p.edges) && Walk(p, v).Some? && !p.frozen
    requires e in Out(p.edges, Walk(p, v).value.tile)
    requires Advance(p.fatigueMax, Walk(p, v).value.res, e).Some?
    ensures Walk(p, v + [e])
            == Some(Spot(e.destination, Advance(p.fatigueMax, Walk(p, v).value.res, e).value))
  {
    assert (v + [e])[..|v|] == v;
  }

  /** AP strictly falls along a walk, and on tiring edges fatigue never does. */
  lemma {:induction false} WalkSpends(p: Problem, w: seq<Edge>, i: nat, j: nat)
    requires Priced(p.edges) && Walk(p, w).Some? && i < j <= |w|
    ensures After(p, w, i).res.ap > After(p, w, j).res.ap
    ensures Tiring(p.edges) ==> After(p, w, i).res.fatigue <= After(p, w, j).res.fatigue
    decreases j
  {
    AfterStep(p, w, j);
    StepFacts(p.fatigueMax, After(p, w, j - 1).res, w[j - 1]);
    if i < j - 1 {
      WalkSpends(p, w, i, j - 1);
    }
  }

  /** `s` is on the tile of `t`, no worse off in fatigue and strictly richer in AP. */
  ghost predicate StrictlyAhead(s: Spot, t: Spot) {
    s.tile == t.tile && Dominates(s.res, t.res) && s.res.ap > t.res.ap
  }

  /** Whoever is strictly ahead can follow the same edges and stays strictly ahead. */
  lemma {:induction false} StayAhead(p: Problem, u: seq<Edge>, v: seq<Edge>, tail: seq<Edge>)
    requires Priced(p.edges) && Walk(p, u).Some? && Walk(p, v).Some? && Walk(p, v + tail).Some?
    requires StrictlyAhead(Walk(p, u).value, Walk(p, v).value)
    ensures Walk(p, u + tail).Some?
    ensures StrictlyAhead(Walk(p, u + tail).value, Walk(p, v + tail).value)
    decreases |tail|
  {
    if tail == [] {
      assert u + tail == u && v + tail == v;
    } else {
      var front, e := tail[..|tail| - 1], tail[|tail| - 1];
      assert v + tail == v + front + [e] && u + tail == u + front + [e];
      WalkLast(p, v + front, e);
      StayAhead(p, u, v, front);
      FollowStep(p, u + front, v + front, e);
    }
  }

  lemma WalkLast(p: Problem, v: seq<Edge>, e: Edge)
    requires Priced(p.edges) && Walk(p, v + [e]).Some?
    ensures Walk(p, v).Some? && !p.frozen && e in Out(p.edges, Walk(p, v).value.tile)
    ensures Advance(p.fatigueMax, Walk(p, v).value.res, e).Some?
  {
    assert (v + [e])[..|v|] == v;
  }

  lemma FollowStep(p: Problem, u: seq<Edge>, v: seq<Edge>, e: Edge)
    requires Priced(p.edges) && Walk(p, u).Some? && Walk(p, v).Some? && Walk(p, v + [e]).Some?
    requires StrictlyAhead(Walk(p, u).value, Walk(p, v).value)
    ensures Walk(p, u + [e]).Some?
    ensures StrictlyAhead(Walk(p, u + [e]).value, Walk(p, v + [e]).value)
  {
    WalkLast(p, v, e);
    StepMonotone(p.fatigueMax, p.fatigueMax, Walk(p, u).value.res, Walk(p, v).value.res, e);
    WalkExtend(p, u, e);
    WalkExtend(p, v, e);
  }

  /** Leaving out a closed detour `i..j` keeps the walk feasible and ends strictly better off. */
  lemma CutDetour(p: Problem, w: seq<Edge>, i: nat, j: nat)
    requires Priced(p.edges) && Tiring(p.edges)
    requires Walk(p, w).Some? && i < j <= |w|
    requires After(p, w, i).tile == After(p, w, j).tile
    ensures Walk(p, w[..i] + w[j..]).Some?
    ensures StrictlyAhead(Walk(p, w[..i] + w[j..]).value, Walk(p, w).value)
  {
    WalkSpends(p, w, i, j);
    WalkPrefix(p, w, i);
    WalkPrefix(p, w, j);
    assert w[..j] + w[j..] == w;
    StayAhead(p, w[..i], w[..j], w[j..]);
  }

  /** A walk that stands on no tile twice (the origin counts as stood on). */
  ghost predicate Simple(p: Problem, w: seq<Edge>)
    requires Priced(p.edges) && Walk(p, w).Some?
  {
    forall i, j :: 0 <= i < j <= |w| ==> After(p, w, i).tile != After(p, w, j).tile
  }

  // ----- Comparing two problems -----

  /** `q` is at least as generous as `p`: same origin, richer start, and a match for each of p's usable edges. */
  ghost predicate AtLeastAsGenerous(q: Problem, p: Problem) {
    && q.origin == p.origin
    && Dominates(q.start, p.start)
    && p.fatigueMax <= q.fatigueMax
    && (q.frozen ==> p.frozen)
    && forall t, e :: e in Out(p.edges, t) && e.resolved ==> HasMatch(q.edges, t, e)
  }

  /** Some edge of `edges` out of `t` goes where `e` goes at the same price. */
  ghost predicate HasMatch(edges: EdgeTable, t: TileId, e: Edge) {
    exists f :: f in Out(edges, t) && f.resolved && f.destination == e.destination
                && f.apCost == e.apCost && f.fatigueCost == e.fatigueCost
  }

  /** Every walk of the tighter problem is outdone on the same tile by a walk of the generous one. */
  lemma {:induction false} GenerousWalk(q: Problem, p: Problem, w: seq<Edge>) returns (v: seq<Edge>)
    requires Priced(p.edges) && Priced(q.edges) && AtLeastAsGenerous(q, p)
    requires Walk(p, w).Some?
    ensures Walk(q, v).Some? && Walk(q, v).value.tile == Walk(p, w).value.tile
    ensures Dominates(Walk(q, v).value.res, Walk(p, w).value.res)
    decreases |w|
  {
    if w == [] {
      v := [];
    } else {
      var front, e := w[..|w| - 1], w[|w| - 1];
      var u := GenerousWalk(q, p, front);
      var s := Walk(p, front).value;
      assert HasMatch(q.edges, s.tile, e);
      var f :| f in Out(q.edges, s.tile) && f.resolved && f.destination == e.destination
               && f.apCost == e.apCost && f.fatigueCost == e.fatigueCost;
      StepMonotone(p.fatigueMax, q.fatigueMax, Walk(q, u).value.res, s.res, e);
      WalkExtend(q, u, f);
      v := u + [f];
    }
  }
}
