/** One settlement's hourly market: resolveSettlementMarket of internal/engine/market.go. */
module MarketRound {
  import opened Accounts
  import opened Phi
  import opened Pricing
  import opened Matching

  /** All sell and buy orders of a round, indexed by good, drawn up before any matching. */
  datatype Books = Books(sells: seq<seq<Offer>>, buys: seq<seq<nat>>) {
    ghost predicate Of(agents: seq<Agent>, members: seq<nat>, market: Market) {
      && |sells| == NUM_GOODS && |buys| == NUM_GOODS
      && (forall g: Good :: AreSells(agents, members, g, sells[g]))
      && (forall g: Good :: AreBuys(agents, members, market, g, buys[g]))
    }
  }

  method CollectOrders(agents: seq<Agent>, members: seq<nat>, market: Market) returns (books: Books)
    requires ValidMembers(agents, members)
    ensures books.Of(agents, members, market)
  {
    hide AreSells, AreBuys, ValidMembers;
    var sells: seq<seq<Offer>>, buys: seq<seq<nat>> := [], [];
    for g := 0 to NUM_GOODS
      invariant |sells| == |buys| == g
      invariant forall k :: 0 <= k < g ==> AreSells(agents, members, k, sells[k])
      invariant forall k :: 0 <= k < g ==> AreBuys(agents, members, market, k, buys[k])
    {
      var s := CollectSells(agents, members, g);
      var b := CollectBuys(agents, members, market, g);
      sells, buys := sells + [s], buys + [b];
    }
    books := Books(sells, buys);
  }

  /** What an agent is sure to keep of a good: its threshold, or all it has if that is less. */
  function Reserve(a: Agent, g: Good): nat {
    Min(a.inventory[g], SurplusThreshold(a, g))
  }

  ghost predicate Bystander(agents: seq<Agent>, members: seq<nat>, i: nat) {
    i < |agents| && (i !in members || !agents[i].alive)
  }

  /** How the agents may look after the goods in `done` have been cleared. */
  ghost predicate Cleared(agents: seq<Agent>, members: seq<nat>, out: seq<Agent>, done: seq<Good>) {
    && |out| == |agents|
    && (forall i :: 0 <= i < |out| ==> out[i] == agents[i].(wealth := out[i].wealth, inventory := out[i].inventory))
    && (forall i: nat :: Bystander(agents, members, i) ==> out[i] == agents[i])
    && (forall i, g: Good :: 0 <= i < |out| ==> out[i].inventory[g] >= Reserve(agents[i], g))
    && (forall i, g: Good :: 0 <= i < |out| && g !in done ==> out[i].inventory[g] == agents[i].inventory[g])
  }

  /** Crowns and every good are conserved. */
  ghost predicate AllConserved(before: seq<Agent>, after: seq<Agent>) {
    && Total(after, WealthOf) == Total(before, WealthOf)
    && (forall g: Good :: Total(after, Holding(g)) == Total(before, Holding(g)))
  }

  lemma {:induction false} FillsOfStranger(buys: seq<nat>, filled: seq<bool>, i: nat)
    requires |filled| <= |buys| && i !in buys
    ensures Fills(buys, filled, i) == 0
  {
    if filled != [] {
      FillsOfStranger(buys, filled[..|filled| - 1], i);
    }
  }

  /** The book of a good not yet cleared is still sound: clearing other goods touches neither
      the stock on offer nor who is on which side. */
  lemma BookSound(agents: seq<Agent>, members: seq<nat>, market: Market, out: seq<Agent>, done: seq<Good>,
                  g: Good, c: nat, sells: seq<Offer>, buys: seq<nat>)
    requires ValidMembers(agents, members) && Cleared(agents, members, out, done) && g !in done
    requires AreSells(agents, members, g, sells) && AreBuys(agents, members, market, g, buys)
    ensures Book(out, g, c, sells, buys).Sound()
  {
    hide Demand, SurplusThreshold;
    forall k | 0 <= k < |buys|
      ensures buys[k] < |agents| && agents[buys[k]].alive && Surplus(agents[buys[k]], g) <= 0
    {
      assert Count(buys, buys[k]) > 0;
      assert Bids(agents, members, market, g, buys[k]) > 0;
      NoSelfTrade(agents[buys[k]], market, g);
    }
  }

  lemma ClearedOne(agents: seq<Agent>, members: seq<nat>, market: Market, b: Book, done: seq<Good>,
                   out: seq<Agent>, filled: seq<bool>, sold: seq<nat>, i: nat)
    requires Cleared(agents, members, b.agents, done) && b.g !in done
    requires AreSells(agents, members, b.g, b.sells) && AreBuys(agents, members, market, b.g, b.buys)
    requires AllSettled(b, out, filled, sold) && WithinOffers(b, sold) && i < |out|
    ensures out[i] == b.agents[i].(wealth := out[i].wealth, inventory := b.agents[i].inventory[b.g := out[i].inventory[b.g]])
    ensures out[i].inventory[b.g] >= Reserve(agents[i], b.g)
    ensures Bystander(agents, members, i) ==> out[i] == b.agents[i]
  {
    hide Demand, SurplusThreshold;
    assert Settled(b.agents[i], out[i], b.g, b.c, Fills(b.buys, filled, i), sold[i]);
    if sold[i] > 0 {
      var j :| 0 <= j < |b.sells| && b.sells[j].agent == i;
      assert sold[i] <= Surplus(agents[i], b.g);
    }
    if Bystander(agents, members, i) {
      assert Bids(agents, members, market, b.g, i) == 0;
      assert Count(b.buys, i) == 0;
      FillsOfStranger(b.buys, filled, i);
      assert out[i].wealth == b.agents[i].wealth;
    }
  }

  lemma ClearedStep(agents: seq<Agent>, members: seq<nat>, market: Market, b: Book, done: seq<Good>,
                    out: seq<Agent>, filled: seq<bool>, sold: seq<nat>)
    requires Cleared(agents, members, b.agents, done) && b.g !in done
    requires AreSells(agents, members, b.g, b.sells) && AreBuys(agents, members, market, b.g, b.buys)
    requires AllSettled(b, out, filled, sold) && WithinOffers(b, sold)
    ensures Cleared(agents, members, out, done + [b.g])
  {
    forall i | 0 <= i < |out|
      ensures out[i] == b.agents[i].(wealth := out[i].wealth, inventory := b.agents[i].inventory[b.g := out[i].inventory[b.g]])
      ensures out[i].inventory[b.g] >= Reserve(agents[i], b.g)
      ensures Bystander(agents, members, i) ==> out[i] == b.agents[i]
    {
      ClearedOne(agents, members, market, b, done, out, filled, sold, i);
    }
    assert |out| == |agents|;
  }

  lemma ConservedStep(agents: seq<Agent>, b: Book, out: seq<Agent>, filled: seq<bool>, sold: seq<nat>)
    requires AllConserved(agents, b.agents) && Conserved(b.agents, out, b.g) && AllSettled(b, out, filled, sold)
    ensures AllConserved(agents, out)
  {
    forall g: Good | g != b.g
      ensures Total(out, Holding(g)) == Total(b.agents, Holding(g))
    {
      forall i | 0 <= i < |out| ensures Holding(g)(out[i]) == Holding(g)(b.agents[i]) {
        assert Settled(b.agents[i], out[i], b.g, b.c, Fills(b.buys, filled, i), sold[i]);
      }
      SumToAgree(out, b.agents, |out|, Holding(g));
    }
  }

  lemma RoundStart(agents: seq<Agent>, members: seq<nat>)
    ensures AllConserved(agents, agents) && Cleared(agents, members, agents, [])
  {
  }

  function SupplyFloor(population: nat): real {
    var f := population / 100;
    if f < 1 then 1.0 else f as real
  }

  /** Supply and demand as counted from the books, with their floors. */
  function Aggregated(e: Entry, supply: nat, demand: nat, population: nat): Entry {
    e.(supply := if supply as real < SupplyFloor(population) then SupplyFloor(population) else supply as real,
       demand := if demand < 1 then 1.0 else demand as real)
  }

  method Quantity(sells: seq<Offer>) returns (n: nat)
    ensures n == Total(sells, QtyOf)
  {
    n := 0;
    for j := 0 to |sells|
      invariant n == SumTo(sells, j, QtyOf)
    {
      n := n + sells[j].qty;
    }
  }

  method DecayPrices(market: Market, population: nat) returns (out: Market)
    requires MarketInBand(market)
    ensures MarketInBand(out)
    ensures forall g: Good :: out[g] == DecaySurplus(market[g], population)
  {
    out := market;
    for g := 0 to NUM_GOODS
      invariant |out| == NUM_GOODS
      invariant forall k: Good :: out[k] == if k < g then DecaySurplus(market[k], population) else market[k]
    {
      out := out[g := DecaySurplus(market[g], population)];
    }
    forall g: Good ensures InBand(out[g]) { BandStep(market[g], Decay(population)); }
  }

  /** What a round starts from. */
  datatype Hour = Hour(agents: seq<Agent>, members: seq<nat>, market: Market, population: nat,
                       season: seq<real>, regional: real)
  {
    ghost predicate Valid() {
      ValidMembers(agents, members) && MarketInBand(market) && |season| == NUM_GOODS
    }

    function Reference(g: Good, supply: nat, demand: nat): (r: real)
      requires MarketInBand(market) && |season| == NUM_GOODS
      ensures r > 0.0
    {
      assert InBand(market[g]);
      ResolvePrice(Aggregated(market[g], supply, demand, population), season[g], regional)
    }
  }

  /** The entries with this hour's supply and demand, and the reference price of each good. */
  method ReferencePrices(h: Hour, books: Books) returns (entries: Market, refs: seq<real>)
    requires h.Valid() && |books.sells| == |books.buys| == NUM_GOODS
    ensures MarketInBand(entries) && |refs| == NUM_GOODS
    ensures forall g: Good ::
              && entries[g] == Aggregated(h.market[g], Total(books.sells[g], QtyOf), |books.buys[g]|, h.population)
              && refs[g] == h.Reference(g, Total(books.sells[g], QtyOf), |books.buys[g]|)
  {
    entries, refs := h.market, [];
    for g := 0 to NUM_GOODS
      invariant |refs| == g && |entries| == NUM_GOODS
      invariant forall k: Good :: k >= g ==> entries[k] == h.market[k]
      invariant forall k: Good :: k < g ==>
        && entries[k] == Aggregated(h.market[k], Total(books.sells[k], QtyOf), |books.buys[k]|, h.population)
        && refs[k] == h.Reference(k, Total(books.sells[k], QtyOf), |books.buys[k]|)
      invariant MarketInBand(entries)
    {
      var supply := Quantity(books.sells[g]);
      assert InBand(h.market[g]);
      entries := entries[g := Aggregated(h.market[g], supply, |books.buys[g]|, h.population)];
      refs := refs + [h.Reference(g, supply, |books.buys[g]|)];
    }
  }

  /** Good g was cleared between `before` and `after`: its orders are those drawn up at the
      start of the hour, they were matched maximally at the rounded reference ask, and e is the
      entry after blending. */
  ghost predicate Clearing(h: Hour, g: Good, before: seq<Agent>, after: seq<Agent>, e: Entry,
                           sells: seq<Offer>, buys: seq<nat>, filled: seq<bool>, sold: seq<nat>)
    requires h.Valid()
  {
    var b := Book(before, g, Rounded(h.Reference(g, Total(sells, QtyOf), |buys|) * MATTER, 0), sells, buys);
    var listed := Aggregated(h.market[g], Total(sells, QtyOf), |buys|, h.population);
    && AreSells(h.agents, h.members, g, sells)
    && AreBuys(h.agents, h.members, h.market, g, buys)
    && |filled| == |buys| && AllSettled(b, after, filled, sold) && WithinOffers(b, sold)
    && Maximal(b, after, filled, sold)
    && e == if SoldTo(sells, sold, |sells|) > 0 then Blend(listed, b.c as real) else listed
  }

  ghost predicate ClearsGood(h: Hour, g: Good, before: seq<Agent>, after: seq<Agent>, e: Entry)
    requires h.Valid()
  {
    exists sells, buys, filled, sold :: Clearing(h, g, before, after, e, sells, buys, filled, sold)
  }

  /** Clears one good of the round and blends the average clearing price into its entry. */
  method ClearGood(h: Hour, sells: seq<Offer>, buys: seq<nat>, ghost done: seq<Good>, before: seq<Agent>,
                   listed: Entry, g: Good, ref: real)
    returns (out: seq<Agent>, e: Entry)
    requires h.Valid() && AreSells(h.agents, h.members, g, sells) && AreBuys(h.agents, h.members, h.market, g, buys)
    requires AllConserved(h.agents, before) && Cleared(h.agents, h.members, before, done) && g !in done
    requires listed == Aggregated(h.market[g], Total(sells, QtyOf), |buys|, h.population)
    requires ref == h.Reference(g, Total(sells, QtyOf), |buys|)
    ensures AllConserved(h.agents, out) && Cleared(h.agents, h.members, out, done + [g])
    ensures InBand(e) && ClearsGood(h, g, before, out, e)
  {
    hide AreSells, AreBuys, AllSettled, WithinOffers, Conserved, Maximal, AllConserved, ValidMembers, Cleared,
         Book.Sound, Blend, Total, SoldTo, Hour.Reference;
    assert InBand(h.market[g]);
    assert InBand(listed);
    ghost var b := Book(before, g, Rounded(ref * MATTER, 0), sells, buys);
    BookSound(h.agents, h.members, h.market, before, done, g, b.c, sells, buys);
    var traded, revenue;
    ghost var filled, sold;
    out, traded, revenue, filled, sold := MatchGood(before, g, ref, sells, buys);
    ClearedStep(h.agents, h.members, h.market, b, done, out, filled, sold);
    ConservedStep(h.agents, b, out, filled, sold);
    e := listed;
    if traded > 0 {
      var avgClear := revenue as real / traded as real;
      Average(revenue, traded, b.c);
      BandStep(listed, Clear(avgClear));
      e := Blend(listed, avgClear);
    }
    assert Clearing(h, g, before, out, e, sells, buys, filled, sold);
  }

  lemma Average(revenue: nat, traded: nat, c: nat)
    requires traded > 0 && revenue == c * traded
    ensures revenue as real / traded as real == c as real
  {
    assert revenue as real == c as real * traded as real;
  }

  /** Every good once, in some order. */
  predicate VisitsAll(order: seq<Good>) {
    Distinct(order) && |order| == NUM_GOODS
  }

  /** `trail` lists the agents before and after each good of a round: every good is cleared once,
      maximally, against the orders drawn up at the start. */
  ghost predicate Trail(h: Hour, order: seq<Good>, out: seq<Agent>, prices: Market,
                        trail: seq<seq<Agent>>, blended: seq<Entry>)
    requires h.Valid()
  {
    && |trail| == |order| + 1 && |blended| == |order| && trail[0] == h.agents && trail[|order|] == out
    && (forall k :: 0 <= k < |order| ==>
          && ClearsGood(h, order[k], trail[k], trail[k + 1], blended[k])
          && prices[order[k]] == DecaySurplus(blended[k], h.population))
  }

  ghost predicate HourCleared(h: Hour, order: seq<Good>, out: seq<Agent>, prices: Market)
    requires h.Valid()
  {
    exists trail, blended :: Trail(h, order, out, prices, trail, blended)
  }

  /** One hourly round, for any order in which the goods are visited. Crowns and every good are
      conserved, every agent keeps its reserve of every good, bystanders are untouched, and prices
      stay in their bands. */
  method ResolveSettlementMarket(h: Hour, order: seq<Good>)
    returns (out: seq<Agent>, prices: Market)
    requires h.Valid() && VisitsAll(order)
    ensures AllConserved(h.agents, out)
    ensures Cleared(h.agents, h.members, out, order)
    ensures MarketInBand(prices)
    ensures HourCleared(h, order, out, prices)
  {
    hide AreSells, AreBuys, AllConserved, ValidMembers, Cleared, ResolvePrice, Aggregated, InBand, Total, Hour.Reference,
         ClearsGood, DecaySurplus;
    var books := CollectOrders(h.agents, h.members, h.market);
    var refs;
    prices, refs := ReferencePrices(h, books);
    ghost var listed := prices;
    out := h.agents;
    ghost var trail: seq<seq<Agent>>, blended: seq<Entry> := [out], [];
    RoundStart(h.agents, h.members);
    for k := 0 to |order|
      invariant AllConserved(h.agents, out)
      invariant Cleared(h.agents, h.members, out, order[..k])
      invariant MarketInBand(prices)
      invariant |trail| == k + 1 && |blended| == k && trail[0] == h.agents && trail[k] == out
      invariant forall j :: 0 <= j < k ==> ClearsGood(h, order[j], trail[j], trail[j + 1], blended[j])
      invariant forall j :: 0 <= j < k ==> prices[order[j]] == blended[j]
      invariant forall j :: k <= j < |order| ==> prices[order[j]] == listed[order[j]]
    {
      var g := order[k];
      assert order[..k + 1] == order[..k] + [g];
      var e;
      out, e := ClearGood(h, books.sells[g], books.buys[g], order[..k], out, prices[g], g, refs[g]);
      prices := prices[g := e];
      trail, blended := trail + [out], blended + [e];
    }
    assert order[..|order|] == order;
    prices := DecayPrices(prices, h.population);
    assert Trail(h, order, out, prices, trail, blended);
  }
}
