/** Travel cost of a merchant trip: routeCost, roadAdjustedCost and terrainMoveCost of
    internal/engine/market.go and the travel discount of internal/engine/trade_routes.go. */
module Routing {
  import opened Accounts
  import opened Hex
  import opened Phi

  datatype Terrain = Plains | Forest | Mountain | Coast | River | Desert | Swamp | Tundra | Ocean

  function MoveCost(t: Terrain): (c: nat)
    ensures 3 <= c <= 999
  {
    match t
    case Plains => 6
    case Forest => 8
    case Mountain => 12
    case Coast => 6
    case River => 3
    case Desert => 8
    case Swamp => 10
    case Tundra => 8
    case Ocean => 999
  }

  /** Cost of entering a hex; a hex off the map costs as much as plains. */
  function EnterCost(world: map<Coord, Terrain>, c: Coord): (cost: nat)
    ensures 3 <= cost <= 999
  {
    if c in world then MoveCost(world[c]) else 6
  }

  ghost function PathCost(world: map<Coord, Terrain>, path: seq<Coord>): nat {
    if |path| <= 1 then 0 else PathCost(world, path[..|path| - 1]) + EnterCost(world, path[|path| - 1])
  }

  /** The neighbour closest to the goal, the first of them on a tie. */
  ghost predicate GreedyStep(cur: Coord, to: Coord, best: Coord) {
    exists k :: 0 <= k < 6 && best == Neighbors(cur)[k]
      && (forall j :: 0 <= j < 6 ==> Distance(best, to) <= Distance(Neighbors(cur)[j], to))
      && (forall j :: 0 <= j < k ==> Distance(best, to) < Distance(Neighbors(cur)[j], to))
  }

  method BestNeighbor(cur: Coord, to: Coord) returns (best: Coord)
    requires cur != to
    ensures best in Neighbors(cur) && Distance(best, to) == Distance(cur, to) - 1
    ensures GreedyStep(cur, to, best)
  {
    hide Distance;
    best := cur;
    var bestDist := Distance(cur, to);
    OneStep(cur, to);
    var ns := Neighbors(cur);
    ghost var at := -1;
    for k := 0 to |ns|
      invariant bestDist == Distance(best, to) <= Distance(cur, to)
      invariant -1 <= at < k
      invariant if at < 0 then best == cur else best == ns[at] && bestDist < Distance(cur, to)
      invariant forall j :: 0 <= j < k ==> bestDist <= Distance(ns[j], to)
      invariant forall j :: 0 <= j < at ==> bestDist < Distance(ns[j], to)
    {
      var d := Distance(ns[k], to);
      if d < bestDist {
        bestDist, best, at := d, ns[k], k;
      }
    }
  }

  /** Greedy stepping always arrives, along a walk as short as any, and its cost is that of the hexes
      it enters. */
  method RouteCost(from: Coord, to: Coord, world: map<Coord, Terrain>) returns (cost: nat, ghost path: seq<Coord>)
    ensures IsWalk(path, from, to) && |path| - 1 == Distance(from, to)
    ensures forall k :: 0 <= k < |path| - 1 ==> GreedyStep(path[k], to, path[k + 1])
    ensures cost == PathCost(world, path)
    ensures 3 * Distance(from, to) <= cost <= 999 * Distance(from, to)
  {
    hide Distance, Neighbors, EnterCost, GreedyStep;
    cost, path := 0, [from];
    var cur := from;
    DistanceZero(to, to);
    while cur != to
      invariant IsWalk(path, from, cur)
      invariant |path| - 1 + Distance(cur, to) == Distance(from, to)
      invariant forall k :: 0 <= k < |path| - 1 ==> GreedyStep(path[k], to, path[k + 1])
      invariant cost == PathCost(world, path)
      invariant 3 * (|path| - 1) <= cost <= 999 * (|path| - 1)
      decreases Distance(cur, to)
    {
      var best := BestNeighbor(cur, to);
      if best == cur { break; }
      assert (path + [best])[..|path|] == path;
      cur := best;
      cost := cost + EnterCost(world, cur);
      path := path + [cur];
    }
  }

  /** int(x): truncation towards zero. */
  function ToInt(x: real): int { if x >= 0.0 then x.Floor else -((-x).Floor) }

  function Scaled(base: nat, factor: real): int { ToInt(base as real * factor) }

  /** The factor a level takes off, for roads and for trade routes alike. */
  function Discount(level: nat): real { 1.0 - level as real * AGNOSIS * 0.1 }

  function RoadAdjusted(base: nat, level: nat): nat {
    if level == 0 then base
    else
      var adjusted := Scaled(base, Discount(level));
      if adjusted < 6 then 6 else adjusted
  }

  function RouteDiscount(routeLevel: nat): real { if routeLevel == 0 then 1.0 else Discount(routeLevel) }

  function TravelCost(base: nat, roadLevel: nat, routeLevel: nat): (ticks: nat) {
    var tc := Scaled(RoadAdjusted(base, roadLevel), RouteDiscount(routeLevel));
    if tc < 6 then 6 else tc
  }

  lemma ScaleDown(base: nat, factor: real)
    requires factor <= 1.0
    ensures Scaled(base, factor) <= base
  {
    assert base as real * factor <= base as real;
  }

  lemma DiscountAtMost(level: nat)
    ensures Discount(level) <= 1.0 && RouteDiscount(level) <= 1.0
  {
    assert level as real * (AGNOSIS * 0.1) >= 0.0;
  }

  lemma RoadBounds(base: nat, level: nat)
    ensures RoadAdjusted(base, level) <= if base < 6 then 6 else base
  {
    hide Scaled, Discount;
    DiscountAtMost(level);
    ScaleDown(base, Discount(level));
  }

  lemma TravelCostBounds(base: nat, roadLevel: nat, routeLevel: nat)
    ensures 6 <= TravelCost(base, roadLevel, routeLevel) <= if base < 6 then 6 else base
  {
    hide Scaled, Discount;
    RoadBounds(base, roadLevel);
    DiscountAtMost(routeLevel);
    ScaleDown(RoadAdjusted(base, roadLevel), RouteDiscount(routeLevel));
  }

  /** Between settlements at most 10 hexes apart the travel time always fits the 16-bit field it is
      stored in, whatever lies between them and whatever the road and route levels. */
  method MerchantTravelTicks(from: Coord, to: Coord, world: map<Coord, Terrain>, roadLevel: nat, routeLevel: nat)
    returns (ticks: nat, ghost path: seq<Coord>)
    requires Distance(from, to) <= MAX_RANGE
    ensures IsWalk(path, from, to) && |path| - 1 == Distance(from, to)
    ensures ticks == TravelCost(PathCost(world, path), roadLevel, routeLevel)
    ensures 6 <= ticks <= 9990 < 0x1_0000
  {
    hide Distance, ToInt, TravelCost, GreedyStep;
    var base;
    base, path := RouteCost(from, to, world);
    TravelCostBounds(base, roadLevel, routeLevel);
    ticks := TravelCost(base, roadLevel, routeLevel);
  }

  // ----- The neighbour index ---------------------------------------------------------

  const MAX_RANGE: nat := 10

  datatype Site = Site(pos: Coord, population: nat, market: bool)

  predicate InRange(a: Site, b: Site) {
    a.population > 0 && b.population > 0 && Distance(a.pos, b.pos) <= MAX_RANGE
  }

  /** Lists are right for all pairs whose smaller index is below i, and for pairs (i, j') with j' below j. */
  ghost predicate Indexed(sites: seq<Site>, near: seq<seq<nat>>, i: nat, j: nat) {
    && |near| == |sites|
    && (forall a: nat, b: nat :: a < |sites| && b < |sites| ==>
          multiset(near[a])[b] ==
            if a != b && InRange(sites[a], sites[b]) &&
               (Min(a, b) < i || (Min(a, b) == i && Max(a, b) < j)) then 1 else 0)
  }

  lemma DistanceSymmetric(a: Coord, b: Coord)
    ensures Distance(a, b) == Distance(b, a)
  {
  }

  /** What one visit to a pair adds. */
  function Linked(sites: seq<Site>, near: seq<seq<nat>>, i: nat, j: nat): seq<seq<nat>>
    requires i < j < |sites| == |near|
  {
    if InRange(sites[i], sites[j]) then near[i := near[i] + [j]][j := near[j] + [i]] else near
  }

  lemma IndexedStep(sites: seq<Site>, near: seq<seq<nat>>, i: nat, j: nat)
    requires i < j < |sites| && Indexed(sites, near, i, j)
    ensures Indexed(sites, Linked(sites, near, i, j), i, j + 1)
  {
    hide Distance;
    DistanceSymmetric(sites[i].pos, sites[j].pos);
  }

  lemma IndexedRow(sites: seq<Site>, near: seq<seq<nat>>, i: nat)
    requires i < |sites|
    ensures Indexed(sites, near, i, 0) == Indexed(sites, near, i, i + 1)
    ensures Indexed(sites, near, i, |sites|) == Indexed(sites, near, i + 1, 0)
  {
    hide Distance;
  }

  lemma IndexedStart(sites: seq<Site>, near: seq<seq<nat>>)
    requires |near| == |sites| && forall a :: 0 <= a < |near| ==> near[a] == []
    ensures Indexed(sites, near, 0, 0)
  {
    hide InRange;
    forall a: nat, b: nat | a < |sites| && b < |sites| ensures multiset(near[a])[b] == 0 && !(Min(a, b) < 0) && !(Max(a, b) < 0) {
      assert near[a] == [];
    }
  }

  lemma IndexedEnd(sites: seq<Site>, near: seq<seq<nat>>)
    requires Indexed(sites, near, |sites|, 0)
    ensures forall a: nat, b: nat :: a < |sites| && b < |sites| ==>
              multiset(near[a])[b] == if a != b && InRange(sites[a], sites[b]) then 1 else 0
  {
    hide InRange;
    forall a: nat, b: nat | a < |sites| && b < |sites|
      ensures multiset(near[a])[b] == if a != b && InRange(sites[a], sites[b]) then 1 else 0
    {
      assert Min(a, b) < |sites|;
    }
  }

  /** Every populated pair within range is listed once on each side, and nothing else is. */
  method BuildWideIndex(sites: seq<Site>) returns (near: seq<seq<nat>>)
    ensures |near| == |sites| && forall a, k :: 0 <= a < |near| && 0 <= k < |near[a]| ==> near[a][k] < |sites|
    ensures forall a: nat, b: nat :: a < |sites| && b < |sites| ==>
              multiset(near[a])[b] == if a != b && InRange(sites[a], sites[b]) then 1 else 0
  {
    hide InRange, Indexed;
    near := seq(|sites|, _ => []);
    IndexedStart(sites, near);
    for i := 0 to |sites|
      invariant |near| == |sites| && Indexed(sites, near, i, 0)
      invariant forall a, k :: 0 <= a < |near| && 0 <= k < |near[a]| ==> near[a][k] < |sites|
    {
      IndexedRow(sites, near, i);
      for j := i + 1 to |sites|
        invariant |near| == |sites| && Indexed(sites, near, i, j)
        invariant forall a, k :: 0 <= a < |near| && 0 <= k < |near[a]| ==> near[a][k] < |sites|
      {
        IndexedStep(sites, near, i, j);
        if InRange(sites[i], sites[j]) {
          near := near[i := near[i] + [j]];
          near := near[j := near[j] + [i]];
        }
      }
      IndexedRow(sites, near, i);
    }
    IndexedEnd(sites, near);
  }

  const TRADE_RANGE: nat := 5

  predicate Trades(a: Site, b: Site) { Distance(a.pos, b.pos) <= TRADE_RANGE && b.market }

  /** The neighbours in trading range that have a market. */
  method BuildTradeIndex(sites: seq<Site>, near: seq<seq<nat>>) returns (trade: seq<seq<nat>>)
    requires |near| == |sites| && forall a, k :: 0 <= a < |near| && 0 <= k < |near[a]| ==> near[a][k] < |sites|
    ensures |trade| == |near|
    ensures forall a: nat, b: nat :: a < |sites| && b < |sites| ==>
              multiset(trade[a])[b] == if Trades(sites[a], sites[b]) then multiset(near[a])[b] else 0
  {
    hide Distance;
    trade := [];
    for a := 0 to |near|
      invariant |trade| == a
      invariant forall c: nat, b: nat :: c < a && b < |sites| ==>
        multiset(trade[c])[b] == if Trades(sites[c], sites[b]) then multiset(near[c])[b] else 0
    {
      var row := TradeRow(sites, a, near[a]);
      trade := trade + [row];
    }
  }

  method TradeRow(sites: seq<Site>, a: nat, near: seq<nat>) returns (row: seq<nat>)
    requires a < |sites| && forall k :: 0 <= k < |near| ==> near[k] < |sites|
    ensures forall b: nat :: b < |sites| ==>
              multiset(row)[b] == if Trades(sites[a], sites[b]) then multiset(near)[b] else 0
  {
    hide Trades;
    row := [];
    for k := 0 to |near|
      invariant forall b: nat :: b < |sites| ==>
        multiset(row)[b] == if Trades(sites[a], sites[b]) then multiset(near[..k])[b] else 0
    {
      assert near[..k + 1] == near[..k] + [near[k]];
      if Trades(sites[a], sites[near[k]]) { row := row + [near[k]]; }
    }
    assert near[..|near|] == near;
  }

  /** Both indexes together: a pair trades exactly if both are populated, at most five hexes apart, and the
      destination has a market; listing is then single. */
  method BuildSettlementNeighbors(sites: seq<Site>) returns (near: seq<seq<nat>>, trade: seq<seq<nat>>)
    ensures |near| == |trade| == |sites|
    ensures forall a: nat, b: nat :: a < |sites| && b < |sites| ==>
              && multiset(near[a])[b] == (if a != b && InRange(sites[a], sites[b]) then 1 else 0)
              && multiset(trade[a])[b] == (if a != b && InRange(sites[a], sites[b]) && Trades(sites[a], sites[b]) then 1 else 0)
  {
    hide InRange, Trades;
    near := BuildWideIndex(sites);
    trade := BuildTradeIndex(sites, near);
    forall a: nat, b: nat | a < |sites| && b < |sites|
      ensures multiset(near[a])[b] == if a != b && InRange(sites[a], sites[b]) then 1 else 0
      ensures multiset(trade[a])[b] == if a != b && InRange(sites[a], sites[b]) && Trades(sites[a], sites[b]) then 1 else 0
    {
      assert multiset(trade[a])[b] == if Trades(sites[a], sites[b]) then multiset(near[a])[b] else 0;
    }
  }
}
