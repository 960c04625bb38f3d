/** The hex grid in axial coordinates: internal/world/hex.go. */
module Hex {
  datatype Coord = Coord(q: int, r: int)

  function Abs(x: int): nat { if x < 0 then -x else x }

  function Max(x: nat, y: nat): nat { if x > y then x else y }

  function Distance(a: Coord, b: Coord): nat {
    Max(Max(Abs(a.q - b.q), Abs(a.r - b.r)), Abs((-a.q - a.r) - (-b.q - b.r)))
  }

  function Neighbors(c: Coord): seq<Coord> {
    [ Coord(c.q + 1, c.r), Coord(c.q + 1, c.r - 1), Coord(c.q, c.r - 1),
      Coord(c.q - 1, c.r), Coord(c.q - 1, c.r + 1), Coord(c.q, c.r + 1) ]
  }

  lemma DistanceZero(a: Coord, b: Coord)
    ensures Distance(a, b) == 0 <==> a == b
  {
  }

  /** The direction that leads straight towards b. */
  function Toward(a: Coord, b: Coord): (k: nat)
    ensures k < 6
  {
    var dq, dr := b.q - a.q, b.r - a.r;
    if dq > 0 then (if dr < 0 then 1 else 0)
    else if dq == 0 then (if dr > 0 then 5 else 2)
    else if dr > 0 then 4 else 3
  }

  lemma TowardCloser(a: Coord, b: Coord)
    requires a != b
    ensures Distance(Neighbors(a)[Toward(a, b)], b) == Distance(a, b) - 1
  {
  }

  lemma NeighborBound(a: Coord, b: Coord, k: nat)
    requires k < 6
    ensures Distance(Neighbors(a)[k], b) + 1 >= Distance(a, b)
  {
  }

  /** One step changes the distance by at most one, and some step reduces it. */
  lemma OneStep(a: Coord, b: Coord)
    ensures forall n :: n in Neighbors(a) ==> Distance(n, b) + 1 >= Distance(a, b)
    ensures a != b ==> exists k :: 0 <= k < 6 && Distance(Neighbors(a)[k], b) == Distance(a, b) - 1
  {
    hide Distance;
    forall k | 0 <= k < 6 ensures Distance(Neighbors(a)[k], b) + 1 >= Distance(a, b) { NeighborBound(a, b, k); }
    if a != b { TowardCloser(a, b); }
  }

  /** A walk: every hex after the first is a neighbour of the one before. */
  ghost predicate IsWalk(path: seq<Coord>, a: Coord, b: Coord) {
    && |path| > 0 && path[0] == a && path[|path| - 1] == b
    && (forall k :: 0 <= k < |path| - 1 ==> path[k + 1] in Neighbors(path[k]))
  }

  /** No walk is shorter than the distance. */
  lemma {:induction false} WalkLength(path: seq<Coord>, a: Coord, b: Coord)
    requires IsWalk(path, a, b)
    ensures |path| - 1 >= Distance(a, b)
    decreases |path|
  {
    if |path| > 1 {
      OneStep(a, b);
      assert path[1] in Neighbors(path[0]);
      WalkLength(path[1..], path[1], b);
    }
  }
}
