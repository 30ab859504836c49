/** Axial hex coordinates, tile links and resolved movement paths. */
module HexGrid {
  import opened Common

  datatype Hex = Hex(q: int, r: int)

  const DIRECTIONS: seq<(int, int)> := [(1, 0), (1, -1), (0, -1), (-1, 0), (-1, 1), (0, 1)]

  /** The coordinate one step away; `None` stands for the raised error. */
  function Neighbor(h: Hex, direction: int): Option<Hex> {
    if 0 <= direction < 6 then Some(Hex(h.q + DIRECTIONS[direction].0, h.r + DIRECTIONS[direction].1)) else None
  }

  function DistanceTo(a: Hex, b: Hex): int {
    var dq, dr := a.q - b.q, a.r - b.r;
    (Abs(dq) + Abs(dr) + Abs(dq + dr)) / 2
  }

  /** The halved sum is the largest of the three differences, so nothing is lost in halving. */
  lemma DistanceIsLargest(a: Hex, b: Hex)
    ensures var dq, dr := a.q - b.q, a.r - b.r;
            && DistanceTo(a, b) >= Abs(dq) && DistanceTo(a, b) >= Abs(dr) && DistanceTo(a, b) >= Abs(dq + dr)
            && (DistanceTo(a, b) == Abs(dq) || DistanceTo(a, b) == Abs(dr) || DistanceTo(a, b) == Abs(dq + dr))
  {
    var dq, dr := a.q - b.q, a.r - b.r;
    if (dq >= 0) == (dr >= 0) {
      assert Abs(dq) + Abs(dr) == Abs(dq + dr);
      assert DistanceTo(a, b) == (2 * Abs(dq + dr)) / 2;
    } else if Abs(dq) >= Abs(dr) {
      assert Abs(dr) + Abs(dq + dr) == Abs(dq);
      assert DistanceTo(a, b) == (2 * Abs(dq)) / 2;
    } else {
      assert Abs(dq) + Abs(dq + dr) == Abs(dr);
      assert DistanceTo(a, b) == (2 * Abs(dr)) / 2;
    }
  }

  predicate Adjacent(a: Hex, b: Hex) {
    exists d :: 0 <= d < 6 && Neighbor(a, d) == Some(b)
  }

  /** Successive coordinates are one step apart. */
  ghost predicate Walk(w: seq<Hex>, from: Hex, to: Hex) {
    w != [] && w[0] == from && w[|w| - 1] == to && forall i :: 0 <= i < |w| - 1 ==> Adjacent(w[i], w[i + 1])
  }

  lemma OneStep(a: Hex, b: Hex, c: Hex)
    requires Adjacent(a, b)
    ensures DistanceTo(a, c) <= DistanceTo(b, c) + 1
  {
    DistanceIsLargest(a, c);
    DistanceIsLargest(b, c);
  }

  /** A step that comes nearer; there is always one. */
  function Nearer(a: Hex, b: Hex): (d: int)
    requires a != b
    ensures 0 <= d < 6 && DistanceTo(Neighbor(a, d).value, b) == DistanceTo(a, b) - 1
  {
    var dq, dr := b.q - a.q, b.r - a.r;
    var d := if dq > 0 then (if dr < 0 then 1 else 0)
             else if dq < 0 then (if dr > 0 then 4 else 3)
             else if dr < 0 then 2 else 5;
    DistanceIsLargest(a, b);
    DistanceIsLargest(Neighbor(a, d).value, b);
    d
  }

  lemma {:induction false} NoShorterWalk(w: seq<Hex>, from: Hex, to: Hex)
    requires Walk(w, from, to)
    ensures |w| - 1 >= DistanceTo(from, to)
  {
    if |w| == 1 {
      DistanceIsLargest(from, to);
    } else {
      NoShorterWalk(w[1..], w[1], to);
      OneStep(from, w[1], to);
    }
  }

  lemma StepThenWalk(from: Hex, next: Hex, rest: seq<Hex>, to: Hex)
    requires Adjacent(from, next) && Walk(rest, next, to)
    ensures Walk([from] + rest, from, to)
  {
    var w := [from] + rest;
    assert forall i :: 0 <= i < |rest| ==> w[i + 1] == rest[i];
  }

  lemma {:induction false} ShortestWalk(from: Hex, to: Hex) returns (w: seq<Hex>)
    ensures Walk(w, from, to) && |w| - 1 == DistanceTo(from, to)
    decreases DistanceTo(from, to)
  {
    DistanceIsLargest(from, to);
    if from == to {
      w := [from];
    } else {
      var next := Neighbor(from, Nearer(from, to)).value;
      DistanceIsLargest(next, to);
      var rest := ShortestWalk(next, to);
      w := [from] + rest;
      assert Adjacent(from, next);
      StepThenWalk(from, next, rest, to);
    }
  }

  /** The distance is the least number of neighbor steps. */
  lemma DistanceIsLeastSteps(from: Hex, to: Hex, n: nat)
    ensures n == DistanceTo(from, to)
            <==> (exists w :: Walk(w, from, to) && |w| == n + 1) && (forall w :: Walk(w, from, to) ==> |w| >= n + 1)
  {
    var shortest := ShortestWalk(from, to);
    forall w | Walk(w, from, to) ensures |w| - 1 >= DistanceTo(from, to) {
      NoShorterWalk(w, from, to);
    }
  }

  // ----- Tiles and resolved paths -----

  datatype Tile = Tile(coordinate: Hex, neighbors: seq<Option<string>>)

  type Tiles = map<string, Tile>

  /** What each tile's own construction checks. */
  predicate SixSlots(tiles: Tiles) {
    forall id :: id in tiles ==> |tiles[id].neighbors| == 6
  }

  /** The link names a tile that lies in that direction and links back. */
  predicate LinkOk(tiles: Tiles, id: string, direction: int)
    requires SixSlots(tiles) && id in tiles && 0 <= direction < 6
  {
    match tiles[id].neighbors[direction]
    case None => true
    case Some(n) =>
      && n in tiles
      && Some(tiles[n].coordinate) == Neighbor(tiles[id].coordinate, direction)
      && tiles[n].neighbors[(direction + 3) % 6] == Some(id)
  }

  ghost predicate LinksOk(tiles: Tiles)
    requires SixSlots(tiles)
  {
    forall id, d :: id in tiles && 0 <= d < 6 ==> LinkOk(tiles, id, d)
  }

  method ValidateLinks(tiles: Tiles) returns (ok: bool)
    requires SixSlots(tiles)
    ensures ok <==> LinksOk(tiles)
  {
    var rest := tiles.Keys;
    while rest != {}
      invariant rest <= tiles.Keys
      invariant forall id, d :: id in tiles && id !in rest && 0 <= d < 6 ==> LinkOk(tiles, id, d)
      decreases |rest|
    {
      var id :| id in rest;
      for direction := 0 to 6
        invariant forall d :: 0 <= d < direction ==> LinkOk(tiles, id, d)
      {
        if !LinkOk(tiles, id, direction) {
          return false;
        }
      }
      rest := rest - {id};
    }
    ok := true;
  }

  predicate Linked(tiles: Tiles, a: string, b: string) {
    a in tiles && Some(b) in tiles[a].neighbors
  }

  /** Where step `i` of a path starts. */
  function Prior(origin: string, path: seq<string>, i: nat): string
    requires i <= |path|
  {
    if i == 0 then origin else path[i - 1]
  }

  /** Every step is a linked neighbor of the one before it, starting from the origin. */
  ghost predicate PathOk(tiles: Tiles, origin: string, path: seq<string>) {
    forall i :: 0 <= i < |path| ==> Linked(tiles, Prior(origin, path, i), path[i])
  }

  method ValidatePath(tiles: Tiles, origin: string, path: seq<string>) returns (ok: bool)
    ensures ok <==> PathOk(tiles, origin, path)
  {
    var prior := origin;
    for i := 0 to |path|
      invariant prior == Prior(origin, path, i)
      invariant forall k :: 0 <= k < i ==> Linked(tiles, Prior(origin, path, k), path[k])
    {
      if !Linked(tiles, prior, path[i]) {
        return false;
      }
      prior := path[i];
    }
    ok := true;
  }

  lemma LinkedIsAdjacent(tiles: Tiles, a: string, b: string)
    requires SixSlots(tiles) && LinksOk(tiles) && Linked(tiles, a, b)
    ensures b in tiles && Adjacent(tiles[a].coordinate, tiles[b].coordinate) && Linked(tiles, b, a)
  {
    var d :| 0 <= d < |tiles[a].neighbors| && tiles[a].neighbors[d] == Some(b);
    assert LinkOk(tiles, a, d);
  }

  lemma PathTail(tiles: Tiles, origin: string, path: seq<string>)
    requires PathOk(tiles, origin, path) && path != []
    ensures Linked(tiles, origin, path[0]) && PathOk(tiles, path[0], path[1..])
  {
    assert Linked(tiles, Prior(origin, path, 0), path[0]);
    forall i | 0 <= i < |path[1..]| ensures Linked(tiles, Prior(path[0], path[1..], i), path[1..][i]) {
      assert Linked(tiles, Prior(origin, path, i + 1), path[i + 1]);
    }
  }

  /** In a state that passes both checks, a resolved path is never shorter than the hex distance it covers. */
  lemma {:induction false} PathCoversDistance(tiles: Tiles, origin: string, path: seq<string>)
    requires SixSlots(tiles) && LinksOk(tiles) && origin in tiles && PathOk(tiles, origin, path) && path != []
    ensures path[|path| - 1] in tiles
    ensures |path| >= DistanceTo(tiles[origin].coordinate, tiles[path[|path| - 1]].coordinate)
    decreases |path|
  {
    PathTail(tiles, origin, path);
    LinkedIsAdjacent(tiles, origin, path[0]);
    var destination := path[|path| - 1];
    if |path| > 1 {
      PathCoversDistance(tiles, path[0], path[1..]);
    }
    OneStep(tiles[origin].coordinate, tiles[path[0]].coordinate, tiles[destination].coordinate);
  }

  /** The way back: every step undone, last first. */
  function Back(origin: string, path: seq<string>): (r: seq<string>)
    ensures |r| == |path| && forall i :: 0 <= i < |r| ==> r[i] == Prior(origin, path, |path| - 1 - i)
  {
    seq(|path|, i requires 0 <= i < |path| => Prior(origin, path, |path| - 1 - i))
  }

  lemma BackStep(origin: string, path: seq<string>, i: nat)
    requires i < |path|
    ensures Prior(path[|path| - 1], Back(origin, path), i) == path[|path| - 1 - i]
  {
  }

  ghost predicate LinksBothWays(tiles: Tiles) {
    forall a, b :: Linked(tiles, a, b) ==> Linked(tiles, b, a)
  }

  lemma BackStepLinked(tiles: Tiles, origin: string, path: seq<string>, i: nat)
    requires LinksBothWays(tiles) && PathOk(tiles, origin, path) && i < |path|
    ensures Linked(tiles, Prior(path[|path| - 1], Back(origin, path), i), Back(origin, path)[i])
  {
    hide Linked;
    BackStep(origin, path, i);
    assert Linked(tiles, Prior(origin, path, |path| - 1 - i), path[|path| - 1 - i]);
  }

  lemma BackIsLinked(tiles: Tiles, origin: string, path: seq<string>)
    requires LinksBothWays(tiles) && PathOk(tiles, origin, path) && path != []
    ensures PathOk(tiles, path[|path| - 1], Back(origin, path))
  {
    var back := Back(origin, path);
    forall i | 0 <= i < |path| ensures Linked(tiles, Prior(path[|path| - 1], back, i), back[i]) {
      BackStepLinked(tiles, origin, path, i);
    }
  }

  /** Links go both ways, so a resolved path can be walked back. */
  lemma PathReverses(tiles: Tiles, origin: string, path: seq<string>)
    requires SixSlots(tiles) && LinksOk(tiles) && PathOk(tiles, origin, path) && path != []
    ensures PathOk(tiles, path[|path| - 1], Back(origin, path))
    ensures Back(origin, path)[|path| - 1] == origin
  {
    forall a, b | Linked(tiles, a, b) ensures Linked(tiles, b, a) {
      LinkedIsAdjacent(tiles, a, b);
    }
    BackIsLinked(tiles, origin, path);
  }
}
