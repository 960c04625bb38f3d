/** Order collection and the two-pointer matcher of internal/engine/market.go:
    what agents offer and want, and how one good's orders are cleared. */
module Matching {
  import opened Accounts
  import opened Phi

  /** How many units of a good an agent keeps back from sale. */
  function SurplusThreshold(a: Agent, g: Good): nat {
    if g == GRAIN || g == FISH then
      if a.occupation == Farmer || a.occupation == Fisher then 3 else 2
    else if g == IRON_ORE || g == TIMBER then
      if a.occupation == Crafter then 5 else 1
    else if g == HERBS then
      if a.occupation == Alchemist then 4 else 1
    else 1
  }

  function Surplus(a: Agent, g: Good): int {
    a.inventory[g] - SurplusThreshold(a, g)
  }

  datatype Recipe = Recipe(mat1: Good, need1: nat, mat2: Good, need2: nat)

  const RECIPES: seq<Recipe> :=
    [ Recipe(IRON_ORE, 2, TIMBER, 1),
      Recipe(IRON_ORE, 2, COAL, 1),
      Recipe(FURS, 2, TOOLS, 1),
      Recipe(GEMS, 2, TOOLS, 1) ]

  function Score(a: Agent, r: Recipe): nat {
    Min(a.inventory[r.mat1], r.need1) + Min(a.inventory[r.mat2], r.need2)
  }

  function Missing(a: Agent, r: Recipe): seq<Good> {
    (if a.inventory[r.mat1] < r.need1 then [r.mat1] else []) +
    (if a.inventory[r.mat2] < r.need2 then [r.mat2] else [])
  }

  /** The recipe a crafter is closest to completing; the first one wins a tie. */
  function BestRecipe(a: Agent): (b: nat)
    ensures b < |RECIPES|
    ensures forall i :: 0 <= i < |RECIPES| ==> Score(a, RECIPES[i]) <= Score(a, RECIPES[b])
    ensures forall i :: 0 <= i < b ==> Score(a, RECIPES[i]) < Score(a, RECIPES[b])
  {
    var s0, s1, s2, s3 :=
      Score(a, RECIPES[0]), Score(a, RECIPES[1]), Score(a, RECIPES[2]), Score(a, RECIPES[3]);
    if s0 >= s1 && s0 >= s2 && s0 >= s3 then 0
    else if s1 >= s2 && s1 >= s3 then 1
    else if s2 >= s3 then 2 else 3
  }

  method CrafterRecipeDemand(a: Agent) returns (needs: seq<Good>)
    ensures needs == Missing(a, RECIPES[BestRecipe(a)])
  {
    var bestScore: int := -1;
    var best := 0;
    for i := 0 to |RECIPES|
      invariant 0 <= best < |RECIPES| && (i > 0 ==> best < i)
      invariant if i == 0 then bestScore == -1 else bestScore == Score(a, RECIPES[best])
      invariant forall k :: 0 <= k < i ==> Score(a, RECIPES[k]) <= bestScore
      invariant forall k :: 0 <= k < best ==> Score(a, RECIPES[k]) < bestScore
    {
      var score := Score(a, RECIPES[i]);
      if score > bestScore {
        bestScore := score;
        best := i;
      }
    }
    assert best == BestRecipe(a);
    needs := Missing(a, RECIPES[best]);
  }

  /** Food demand: grain, fish or both, avoiding one priced above three times its base. */
  function FoodDemand(a: Agent, market: Market): seq<Good> {
    if a.inventory[GRAIN] + a.inventory[FISH] >= 3 then []
    else
      var grainDear := market[GRAIN].price > market[GRAIN].basePrice * 3.0;
      var fishDear := market[FISH].price > market[FISH].basePrice * 3.0;
      if grainDear && !fishDear then [FISH]
      else if fishDear && !grainDear then [GRAIN]
      else [GRAIN, FISH]
  }

  /** The goods an agent bids for. A crafter without tools may name them twice. */
  function Demand(a: Agent, market: Market): seq<Good> {
    FoodDemand(a, market)
    + (if a.occupation == Crafter then Missing(a, RECIPES[BestRecipe(a)]) else [])
    + (if a.occupation == Alchemist && a.inventory[HERBS] < 2 then [HERBS] else [])
    + (if a.occupation == Alchemist && a.inventory[EXOTICS] < 2 then [EXOTICS] else [])
    + (if a.occupation == Scholar && a.inventory[HERBS] < 1 then [HERBS] else [])
    + (if a.inventory[TOOLS] < 1 then [TOOLS] else [])
  }

  /** Nobody bids for a good they also offer, whatever they hold and whatever their
      trade, so no agent can trade with itself. */
  lemma NoSelfTrade(a: Agent, market: Market, g: Good)
    requires g in Demand(a, market)
    ensures Surplus(a, g) <= 0
  {
    var r := RECIPES[BestRecipe(a)];
    assert g in FoodDemand(a, market) || g in Missing(a, r) || g in [HERBS, EXOTICS, TOOLS];
  }

  method DemandedGoods(a: Agent, market: Market) returns (needs: seq<Good>)
    ensures needs == Demand(a, market)
  {
    needs := FoodDemand(a, market);
    if a.occupation == Crafter {
      var recipe := CrafterRecipeDemand(a);
      needs := needs + recipe;
    }
    if a.occupation == Alchemist {
      if a.inventory[HERBS] < 2 { needs := needs + [HERBS]; }
      if a.inventory[EXOTICS] < 2 { needs := needs + [EXOTICS]; }
    }
    if a.occupation == Scholar && a.inventory[HERBS] < 1 { needs := needs + [HERBS]; }
    if a.inventory[TOOLS] < 1 { needs := needs + [TOOLS]; }
  }

  // ----- Order collection ----------------------------------------------------

  datatype Offer = Offer(agent: nat, qty: nat)

  function QtyOf(o: Offer): nat { o.qty }

  predicate ValidMembers(agents: seq<Agent>, members: seq<nat>) {
    Distinct(members) && forall k :: 0 <= k < |members| ==> members[k] < |agents|
  }

  ghost predicate OffersBy(sells: seq<Offer>, i: nat) {
    exists j :: 0 <= j < |sells| && sells[j].agent == i
  }

  /** `sells` holds one offer of the whole surplus of each living member who has one. */
  ghost predicate AreSells(agents: seq<Agent>, members: seq<nat>, g: Good, sells: seq<Offer>) {
    && (forall j, k :: 0 <= j < k < |sells| ==> sells[j].agent != sells[k].agent)
    && (forall j :: 0 <= j < |sells| ==>
          && sells[j].agent in members && sells[j].agent < |agents|
          && agents[sells[j].agent].alive
          && sells[j].qty > 0
          && sells[j].qty == Surplus(agents[sells[j].agent], g))
    && (forall i :: i in members && i < |agents| && agents[i].alive && Surplus(agents[i], g) > 0 ==>
          OffersBy(sells, i))
  }

  /** How many single-unit bids for g an agent places. */
  function Bids(agents: seq<Agent>, members: seq<nat>, market: Market, g: Good, i: nat): nat {
    if i in members && i < |agents| && agents[i].alive then Count(Demand(agents[i], market), g) else 0
  }

  ghost predicate AreBuys(agents: seq<Agent>, members: seq<nat>, market: Market, g: Good, buys: seq<nat>) {
    forall i: nat :: Count(buys, i) == Bids(agents, members, market, g, i)
  }

  method CollectSells(agents: seq<Agent>, members: seq<nat>, g: Good) returns (sells: seq<Offer>)
    requires ValidMembers(agents, members)
    ensures AreSells(agents, members, g, sells)
  {
    sells := [];
    for k := 0 to |members|
      invariant AreSells(agents, members[..k], g, sells)
    {
      var i := members[k];
      assert members[..k + 1] == members[..k] + [i];
      ghost var before := sells;
      if agents[i].alive && Surplus(agents[i], g) > 0 {
        sells := sells + [Offer(i, Surplus(agents[i], g))];
        assert sells[|sells| - 1].agent == i;
      }
      forall m | m in members[..k] && OffersBy(before, m) ensures OffersBy(sells, m) {
        var j :| 0 <= j < |before| && before[j].agent == m;
        assert sells[j].agent == m;
      }
    }
    assert members[..|members|] == members;
  }

  /** One bid per mention of g in the agent's demand. */
  method BidsOf(i: nat, a: Agent, market: Market, g: Good) returns (bids: seq<nat>)
    ensures forall m: nat :: Count(bids, m) == if m == i then Count(Demand(a, market), g) else 0
  {
    var needs := DemandedGoods(a, market);
    hide Demand;
    bids := [];
    for d := 0 to |needs|
      invariant forall m: nat :: Count(bids, m) == if m == i then Count(needs[..d], g) else 0
    {
      assert needs[..d + 1] == needs[..d] + [needs[d]];
      CountConcat(needs[..d], [needs[d]]);
      CountConcat(bids, [i]);
      if needs[d] == g { bids := bids + [i]; }
    }
    assert needs[..|needs|] == needs;
  }

  method CollectBuys(agents: seq<Agent>, members: seq<nat>, market: Market, g: Good) returns (buys: seq<nat>)
    requires ValidMembers(agents, members)
    ensures AreBuys(agents, members, market, g, buys)
  {
    hide Demand;
    buys := [];
    for k := 0 to |members|
      invariant AreBuys(agents, members[..k], market, g, buys)
    {
      var i := members[k];
      assert members[..k + 1] == members[..k] + [i];
      assert i !in members[..k];
      if agents[i].alive {
        var bids := BidsOf(i, agents[i], market, g);
        CountConcat(buys, bids);
        buys := buys + bids;
      }
    }
    assert members[..|members|] == members;
  }

  // ----- Clearing one good ---------------------------------------------------

  /** One unit of g passes from seller to buyer for c crowns. */
  function TradeUnit(agents: seq<Agent>, g: Good, buyer: nat, seller: nat, c: nat): seq<Agent>
    requires buyer < |agents| && seller < |agents| && buyer != seller
    requires agents[buyer].wealth >= c && agents[seller].inventory[g] > 0
  {
    var b, s := agents[buyer], agents[seller];
    agents
      [buyer := b.(wealth := b.wealth - c, inventory := b.inventory[g := b.inventory[g] + 1])]
      [seller := s.(wealth := s.wealth + c, inventory := s.inventory[g := s.inventory[g] - 1])]
  }

  /** Crowns and units of g are neither made nor lost. */
  ghost predicate Conserved(before: seq<Agent>, after: seq<Agent>, g: Good) {
    Total(after, WealthOf) == Total(before, WealthOf) && Total(after, Holding(g)) == Total(before, Holding(g))
  }

  lemma TradeUnitConserves(agents: seq<Agent>, g: Good, buyer: nat, seller: nat, c: nat)
    requires buyer < |agents| && seller < |agents| && buyer != seller
    requires agents[buyer].wealth >= c && agents[seller].inventory[g] > 0
    ensures Conserved(agents, TradeUnit(agents, g, buyer, seller, c), g)
  {
    var b, s := agents[buyer], agents[seller];
    var b' := b.(wealth := b.wealth - c, inventory := b.inventory[g := b.inventory[g] + 1]);
    var s' := s.(wealth := s.wealth + c, inventory := s.inventory[g := s.inventory[g] - 1]);
    TotalUpdate2(agents, buyer, b', seller, s', WealthOf);
    TotalUpdate2(agents, buyer, b', seller, s', Holding(g));
  }

  /** How many of the first |filled| bids were filled for agent i. */
  ghost function Fills(buys: seq<nat>, filled: seq<bool>, i: nat): nat
    requires |filled| <= |buys|
  {
    if filled == [] then 0
    else
      var n := |filled| - 1;
      Fills(buys, filled[..n], i) + if filled[n] && buys[n] == i then 1 else 0
  }

  lemma FillsAppend(buys: seq<nat>, filled: seq<bool>, f: bool, i: nat)
    requires |filled| < |buys|
    ensures Fills(buys, filled + [f], i) ==
            Fills(buys, filled, i) + if f && buys[|filled|] == i then 1 else 0
  {
    assert (filled + [f])[..|filled|] == filled;
  }

  /** The orders for one good at a clearing price of c crowns, before matching. */
  datatype Book = Book(agents: seq<Agent>, g: Good, c: nat, sells: seq<Offer>, buys: seq<nat>) {
    /** Every seller can deliver, and nobody is on both sides. */
    ghost predicate Sound() {
      && (forall j, k :: 0 <= j < k < |sells| ==> sells[j].agent != sells[k].agent)
      && (forall j :: 0 <= j < |sells| ==>
            sells[j].agent < |agents| && 0 < sells[j].qty <= agents[sells[j].agent].inventory[g])
      && (forall k :: 0 <= k < |buys| ==> buys[k] < |agents|)
      && (forall j, k :: 0 <= j < |sells| && 0 <= k < |buys| ==> sells[j].agent != buys[k])
    }
  }

  /** The matcher after the first |filled| bids: sold[i] units of agent i are gone, and
      offer si is the first not exhausted, with `remain` units left. */
  datatype Progress = Progress(out: seq<Agent>, si: nat, remain: nat, traded: nat, filled: seq<bool>, sold: seq<nat>)

  /** What clearing did to an agent who had `bought` bids filled and sold `sold` units. */
  ghost predicate Settled(before: Agent, after: Agent, g: Good, c: nat, bought: nat, sold: nat) {
    && after == before.(wealth := after.wealth, inventory := before.inventory[g := after.inventory[g]])
    && after.wealth + c * bought == before.wealth + c * sold
    && after.inventory[g] + sold == before.inventory[g] + bought
  }

  ghost predicate AllSettled(b: Book, out: seq<Agent>, filled: seq<bool>, sold: seq<nat>) {
    && |filled| <= |b.buys|
    && |out| == |sold| == |b.agents|
    && (forall i :: 0 <= i < |out| ==>
          Settled(b.agents[i], out[i], b.g, b.c, Fills(b.buys, filled, i), sold[i]))
  }

  ghost predicate SoldSoFar(sells: seq<Offer>, si: nat, remain: nat, sold: seq<nat>) {
    && si <= |sells|
    && (si < |sells| ==> 0 < remain <= sells[si].qty)
    && (forall j :: 0 <= j < |sells| ==>
          sells[j].agent < |sold| &&
          sold[sells[j].agent] == if j < si then sells[j].qty else if j == si then sells[j].qty - remain else 0)
    && (forall i :: 0 <= i < |sold| && sold[i] > 0 ==> OffersBy(sells, i))
  }

  /** The matcher's loop invariant. */
  ghost predicate Matched(b: Book, p: Progress) {
    && b.Sound()
    && AllSettled(b, p.out, p.filled, p.sold)
    && SoldSoFar(b.sells, p.si, p.remain, p.sold)
    && p.traded == SumTo(b.sells, p.si, QtyOf) + (if p.si < |b.sells| then b.sells[p.si].qty - p.remain else 0)
    && Conserved(b.agents, p.out, b.g)
    && (forall k :: 0 <= k < |p.filled| ==> p.filled[k] || p.out[b.buys[k]].wealth < b.c)
  }

  lemma BoughtOne(before: Agent, after: Agent, g: Good, c: nat, bought: nat, sold: nat)
    requires Settled(before, after, g, c, bought, sold) && after.wealth >= c
    ensures Settled(before, after.(wealth := after.wealth - c, inventory := after.inventory[g := after.inventory[g] + 1]),
                    g, c, bought + 1, sold)
  {
    assert c * (bought + 1) == c * bought + c;
  }

  lemma SoldOne(before: Agent, after: Agent, g: Good, c: nat, bought: nat, sold: nat)
    requires Settled(before, after, g, c, bought, sold) && after.inventory[g] > 0
    ensures Settled(before, after.(wealth := after.wealth + c, inventory := after.inventory[g := after.inventory[g] - 1]),
                    g, c, bought, sold + 1)
  {
    assert c * (sold + 1) == c * sold + c;
  }

  lemma SettleTrade(b: Book, out: seq<Agent>, filled: seq<bool>, sold: seq<nat>, seller: nat)
    requires AllSettled(b, out, filled, sold) && |filled| < |b.buys|
    requires b.buys[|filled|] < |out| && seller < |out| && b.buys[|filled|] != seller
    requires out[b.buys[|filled|]].wealth >= b.c && out[seller].inventory[b.g] > 0
    ensures var out' := TradeUnit(out, b.g, b.buys[|filled|], seller, b.c);
            && AllSettled(b, out', filled + [true], sold[seller := sold[seller] + 1])
            && (forall i :: 0 <= i < |out| && i != seller ==> out'[i].wealth <= out[i].wealth)
  {
    hide Settled, Fills;
    var buyer, c := b.buys[|filled|], b.c;
    BoughtOne(b.agents[buyer], out[buyer], b.g, c, Fills(b.buys, filled, buyer), sold[buyer]);
    SoldOne(b.agents[seller], out[seller], b.g, c, Fills(b.buys, filled, seller), sold[seller]);
    forall i | 0 <= i < |out|
      ensures Fills(b.buys, filled + [true], i) == Fills(b.buys, filled, i) + if i == buyer then 1 else 0
    {
      FillsAppend(b.buys, filled, true, i);
    }
  }

  lemma SettleMiss(b: Book, out: seq<Agent>, filled: seq<bool>, sold: seq<nat>)
    requires AllSettled(b, out, filled, sold) && |filled| < |b.buys|
    ensures AllSettled(b, out, filled + [false], sold)
  {
    forall i | 0 <= i < |out|
      ensures Fills(b.buys, filled + [false], i) == Fills(b.buys, filled, i)
    {
      FillsAppend(b.buys, filled, false, i);
    }
  }

  /** Selling one unit of the current offer, moving on when it is exhausted. */
  function AfterSale(sells: seq<Offer>, si: nat, remain: nat): (nat, nat)
    requires si < |sells| && remain > 0
  {
    if remain > 1 then (si, remain - 1)
    else (si + 1, if si + 1 < |sells| then sells[si + 1].qty else 0)
  }

  lemma SoldAdvance(b: Book, si: nat, remain: nat, sold: seq<nat>)
    requires b.Sound() && SoldSoFar(b.sells, si, remain, sold) && si < |b.sells|
    ensures var (si', remain') := AfterSale(b.sells, si, remain);
            SoldSoFar(b.sells, si', remain', sold[b.sells[si].agent := sold[b.sells[si].agent] + 1])
  {
    assert OffersBy(b.sells, b.sells[si].agent);
  }

  lemma MatchedBounds(b: Book, p: Progress)
    requires Matched(b, p) && p.si < |b.sells| && |p.filled| < |b.buys|
    ensures |p.sold| == |p.out| && p.remain > 0
    ensures b.buys[|p.filled|] < |p.out| && b.sells[p.si].agent < |p.out| && b.buys[|p.filled|] != b.sells[p.si].agent
    ensures p.out[b.sells[p.si].agent].inventory[b.g] > 0
  {
    var i := b.sells[p.si].agent;
    assert Settled(b.agents[i], p.out[i], b.g, b.c, Fills(b.buys, p.filled, i), p.sold[i]);
  }

  lemma MatchedTrade(b: Book, p: Progress)
    requires Matched(b, p) && p.si < |b.sells| && |p.filled| < |b.buys|
    requires p.out[b.buys[|p.filled|]].wealth >= b.c
    ensures p.remain > 0 && p.out[b.sells[p.si].agent].inventory[b.g] > 0
    ensures var seller := b.sells[p.si].agent;
            var (si', remain') := AfterSale(b.sells, p.si, p.remain);
            Matched(b, Progress(TradeUnit(p.out, b.g, b.buys[|p.filled|], seller, b.c), si', remain', p.traded + 1,
                                p.filled + [true], p.sold[seller := p.sold[seller] + 1]))
  {
    hide Settled, Fills, Total, Conserved, SoldSoFar;
    MatchedBounds(b, p);
    var buyer, seller := b.buys[|p.filled|], b.sells[p.si].agent;
    SoldAdvance(b, p.si, p.remain, p.sold);
    TradeUnitConserves(p.out, b.g, buyer, seller, b.c);
    ConservedTrans(b.agents, p.out, TradeUnit(p.out, b.g, buyer, seller, b.c), b.g);
    SettleTrade(b, p.out, p.filled, p.sold, seller);
  }

  lemma ConservedTrans(x: seq<Agent>, y: seq<Agent>, z: seq<Agent>, g: Good)
    requires Conserved(x, y, g) && Conserved(y, z, g)
    ensures Conserved(x, z, g)
  {
  }

  lemma MatchedMiss(b: Book, p: Progress)
    requires Matched(b, p) && |p.filled| < |b.buys| && p.out[b.buys[|p.filled|]].wealth < b.c
    ensures Matched(b, p.(filled := p.filled + [false]))
  {
    hide Settled, Fills, Total, SumTo, Conserved, SoldSoFar, AllSettled, Book.Sound;
    MatchedSizes(b, p);
    SettleMiss(b, p.out, p.filled, p.sold);
  }

  lemma MatchedSizes(b: Book, p: Progress)
    requires Matched(b, p)
    ensures |p.out| == |b.agents| && |p.filled| <= |b.buys| && forall k :: 0 <= k < |b.buys| ==> b.buys[k] < |p.out|
  {
  }

  lemma MatchedStart(b: Book)
    requires b.Sound()
    ensures Matched(b, Progress(b.agents, 0, if |b.sells| > 0 then b.sells[0].qty else 0, 0, [],
                                seq(|b.agents|, _ => 0)))
  {
  }

  /** Bids that were never reached count as unfilled. */
  lemma {:induction false} Pad(b: Book, out: seq<Agent>, filled: seq<bool>, sold: seq<nat>) returns (padded: seq<bool>)
    requires AllSettled(b, out, filled, sold)
    ensures |padded| == |b.buys| && filled <= padded
    ensures AllSettled(b, out, padded, sold)
    decreases |b.buys| - |filled|
  {
    if |filled| == |b.buys| {
      padded := filled;
    } else {
      SettleMiss(b, out, filled, sold);
      padded := Pad(b, out, filled + [false], sold);
    }
  }

  /** Either the whole supply is sold, or every unfilled bid is somebody's who cannot afford a unit. */
  ghost predicate Maximal(b: Book, out: seq<Agent>, filled: seq<bool>, sold: seq<nat>) {
    || (forall j :: 0 <= j < |b.sells| && b.sells[j].agent < |sold| ==> sold[b.sells[j].agent] == b.sells[j].qty)
    || (forall k :: 0 <= k < |b.buys| && k < |filled| && b.buys[k] < |out| ==>
          filled[k] || out[b.buys[k]].wealth < b.c)
  }

  /** Units sold under the first n offers. */
  ghost function SoldTo(sells: seq<Offer>, sold: seq<nat>, n: nat): nat
    requires n <= |sells| && forall j :: 0 <= j < |sells| ==> sells[j].agent < |sold|
  {
    if n == 0 then 0 else SoldTo(sells, sold, n - 1) + sold[sells[n - 1].agent]
  }

  lemma {:induction false} SoldTotal(sells: seq<Offer>, si: nat, remain: nat, sold: seq<nat>, n: nat)
    requires SoldSoFar(sells, si, remain, sold) && n <= |sells|
    ensures SoldTo(sells, sold, n) ==
            if n <= si then SumTo(sells, n, QtyOf) else SumTo(sells, si, QtyOf) + sells[si].qty - remain
  {
    if n > 0 {
      SoldTotal(sells, si, remain, sold, n - 1);
    }
  }

  ghost predicate WithinOffers(b: Book, sold: seq<nat>) {
    && (forall i :: 0 <= i < |sold| && sold[i] > 0 ==> OffersBy(b.sells, i))
    && (forall j :: 0 <= j < |b.sells| ==> b.sells[j].agent < |sold| && sold[b.sells[j].agent] <= b.sells[j].qty)
  }

  lemma MatchedEnd(b: Book, p: Progress) returns (padded: seq<bool>)
    requires Matched(b, p) && (p.si == |b.sells| || |p.filled| == |b.buys|)
    ensures |padded| == |b.buys| && AllSettled(b, p.out, padded, p.sold)
    ensures WithinOffers(b, p.sold)
    ensures Conserved(b.agents, p.out, b.g)
    ensures Maximal(b, p.out, padded, p.sold)
    ensures p.traded == SoldTo(b.sells, p.sold, |b.sells|)
  {
    SoldTotal(b.sells, p.si, p.remain, p.sold, |b.sells|);
    padded := Pad(b, p.out, p.filled, p.sold);
  }

  /** Clears one good. Everyone pays and receives the same c crowns a unit, crowns and
      units are conserved, each seller parts with at most what it offered, and the
      outcome is maximal. All asks are ref * Matter and all bids ref * Being, so every
      order of the two books is sorted by price. */
  method MatchGood(agents: seq<Agent>, g: Good, ref: real, sells: seq<Offer>, buys: seq<nat>)
    returns (out: seq<Agent>, traded: nat, revenue: nat, ghost filled: seq<bool>, ghost sold: seq<nat>)
    requires ref >= 0.0
    requires Book(agents, g, Rounded(ref * MATTER, 0), sells, buys).Sound()
    ensures var b := Book(agents, g, Rounded(ref * MATTER, 0), sells, buys);
            && |filled| == |buys|
            && AllSettled(b, out, filled, sold)
            && WithinOffers(b, sold)
            && Maximal(b, out, filled, sold)
            && traded == SoldTo(sells, sold, |sells|)
    ensures Conserved(agents, out, g) && revenue == Rounded(ref * MATTER, 0) * traded
  {
    hide Matched, TradeUnit, AllSettled, WithinOffers, Maximal, Conserved, Book.Sound;
    var ask, bid := ref * MATTER, ref * BEING;
    var c := Rounded(ask, 0);
    ghost var b := Book(agents, g, c, sells, buys);
    MatchedStart(b);
    out, traded, revenue := agents, 0, 0;
    filled, sold := [], seq(|agents|, _ => 0);
    var si, bi := 0, 0;
    var remain: nat := if |sells| > 0 then sells[0].qty else 0;
    while si < |sells| && bi < |buys|
      invariant si <= |sells| && bi == |filled| <= |buys|
      invariant Matched(b, Progress(out, si, remain, traded, filled, sold))
      invariant revenue == c * traded
    {
      if ask > bid { break; }
      MatchedBounds(b, Progress(out, si, remain, traded, filled, sold));
      var buyer, seller := buys[bi], sells[si].agent;
      if c > 0 && out[buyer].wealth < c {
        MatchedMiss(b, Progress(out, si, remain, traded, filled, sold));
        filled := filled + [false];
      } else {
        MatchedTrade(b, Progress(out, si, remain, traded, filled, sold));
        out := TradeUnit(out, g, buyer, seller, c);
        filled, sold := filled + [true], sold[seller := sold[seller] + 1];
        assert c * (traded + 1) == c * traded + c;
        traded, revenue, remain := traded + 1, revenue + c, remain - 1;
      }
      bi := bi + 1;
      if remain <= 0 {
        si := si + 1;
        remain := if si < |sells| then sells[si].qty else 0;
      }
    }
    filled := MatchedEnd(b, Progress(out, si, remain, traded, filled, sold));
  }
}
