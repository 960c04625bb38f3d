/** Merchant trips: resolveMerchantTrade, sellMerchantCargo, findDirectBuyer and
    tier2Commission of internal/engine/market.go. */
module Merchants {
  import opened Accounts
  import opened Phi
  import opened Payout
  import opened Matching
  import opened Fiscal

  const CARGO_UNITS: nat := 5

  /** Loading the cart: the merchant pays for as many of the five units as it can, and the home
      treasury fronts the rest on consignment while it lasts. */
  ghost predicate Loaded(wealth: nat, treasury: nat, price: nat, wealth': nat, treasury': nat, own: nat, fronted: nat) {
    && own + fronted <= CARGO_UNITS
    && wealth' + own * price == wealth
    && treasury' + fronted * price == treasury + own * price
    && (own + fronted == CARGO_UNITS || (wealth' < price && treasury' < price))
    && (fronted == 0 || wealth' < price)
  }

  /** A fronted unit leaves the treasury without reaching anybody, so the purchase conserves crowns
      exactly when nothing is fronted: when the merchant can pay for all five units, or neither
      purse can pay for one. */
  method BuyCargo(wealth: nat, treasury: nat, price: nat)
    returns (wealth': nat, treasury': nat, own: nat, fronted: nat)
    requires price >= 1
    ensures Loaded(wealth, treasury, price, wealth', treasury', own, fronted)
    ensures wealth' + treasury' == wealth + treasury <==>
              wealth >= CARGO_UNITS * price || (wealth < price && treasury < price)
  {
    wealth', treasury', own, fronted := wealth, treasury, 0, 0;
    for i := 0 to CARGO_UNITS
      invariant own + fronted == i
      invariant wealth' + own * price == wealth
      invariant treasury' + fronted * price == treasury + own * price
      invariant fronted == 0 || wealth' < price
    {
      if wealth' >= price {
        assert (own + 1) * price == own * price + price;
        wealth', treasury', own := wealth' - price, treasury' + price, own + 1;
      } else if treasury' >= price {
        assert (fronted + 1) * price == fronted * price + price;
        treasury', fronted := treasury' - price, fronted + 1;
      } else {
        break;
      }
    }
    assert fronted > 0 ==> fronted * price >= price;
    if own < CARGO_UNITS {
      assert wealth < own * price + price <= CARGO_UNITS * price by { LessMultiple(own, CARGO_UNITS, price); }
    }
  }

  /** A merchant with 20 crowns loading cargo at 10 a unit from a treasury of 100: 30 crowns vanish. */
  lemma ConsignmentLeaks()
    ensures Loaded(20, 100, 10, 0, 90, 2, 3) && 0 + 90 < 20 + 100
  {
  }

  /** Loading has one outcome only. */
  lemma LoadedUnique(wealth: nat, treasury: nat, price: nat,
                     w1: nat, t1: nat, own1: nat, fronted1: nat, w2: nat, t2: nat, own2: nat, fronted2: nat)
    requires price >= 1
    requires Loaded(wealth, treasury, price, w1, t1, own1, fronted1) && Loaded(wealth, treasury, price, w2, t2, own2, fronted2)
    ensures own1 == own2 && fronted1 == fronted2 && w1 == w2 && t1 == t2
  {
    if own1 < own2 { LessMultiple(own1, own2, price); }
    if own2 < own1 { LessMultiple(own2, own1, price); }
    if fronted1 < fronted2 { LessMultiple(fronted1, fronted2, price); }
    if fronted2 < fronted1 { LessMultiple(fronted2, fronted1, price); }
  }

  /** Food for the road, grain first: one unit for each purchase, crowns to the treasury, until there
      is enough or neither food is affordable. */
  ghost predicate Provisioned(wealth: nat, inventory: Goods, meals: nat, grainCost: nat, fishCost: nat,
                              wealth': nat, inventory': Goods) {
    var food, food' := inventory[GRAIN] + inventory[FISH], inventory'[GRAIN] + inventory'[FISH];
    && inventory' == inventory[GRAIN := inventory'[GRAIN]][FISH := inventory'[FISH]]
    && inventory'[GRAIN] >= inventory[GRAIN] && inventory'[FISH] >= inventory[FISH]
    && wealth' + (inventory'[GRAIN] - inventory[GRAIN]) * grainCost
               + (inventory'[FISH] - inventory[FISH]) * fishCost == wealth
    && (if food >= meals then food' == food
        else food' == meals || (food' < meals && wealth' < grainCost && wealth' < fishCost))
  }

  method Provision(wealth: nat, treasury: nat, inventory: Goods, meals: nat, grainCost: nat, fishCost: nat)
    returns (wealth': nat, treasury': nat, inventory': Goods)
    ensures wealth' + treasury' == wealth + treasury && wealth' <= wealth
    ensures Provisioned(wealth, inventory, meals, grainCost, fishCost, wealth', inventory')
  {
    wealth', treasury', inventory' := wealth, treasury, inventory;
    var food := inventory[GRAIN] + inventory[FISH];
    while food < meals
      invariant wealth' + treasury' == wealth + treasury && wealth' <= wealth
      invariant food == inventory'[GRAIN] + inventory'[FISH]
      invariant food <= meals || food == inventory[GRAIN] + inventory[FISH]
      invariant inventory' == inventory[GRAIN := inventory'[GRAIN]][FISH := inventory'[FISH]]
      invariant inventory'[GRAIN] >= inventory[GRAIN] && inventory'[FISH] >= inventory[FISH]
      invariant wealth' + (inventory'[GRAIN] - inventory[GRAIN]) * grainCost
                        + (inventory'[FISH] - inventory[FISH]) * fishCost == wealth
    {
      if wealth' >= grainCost {
        wealth', treasury' := wealth' - grainCost, treasury' + grainCost;
        inventory' := inventory'[GRAIN := inventory'[GRAIN] + 1];
      } else if wealth' >= fishCost {
        wealth', treasury' := wealth' - fishCost, treasury' + fishCost;
        inventory' := inventory'[FISH := inventory'[FISH] + 1];
      } else {
        break;
      }
      food := food + 1;
    }
  }

  // ----- Selling at the destination -------------------------------------------

  /** May an agent buy one unit straight from a merchant at this price? */
  predicate WillBuy(a: Agent, g: Good, price: nat) {
    && a.alive && a.wealth >= price && price <= Trunc(a.wealth as real * AGNOSIS)
    && if g == GRAIN || g == FISH then a.survival <= MATTER else a.inventory[g] < 2
  }

  method FindDirectBuyer(agents: seq<Agent>, members: seq<nat>, g: Good, price: nat) returns (buyer: Option<nat>)
    requires ValidMembers(agents, members)
    ensures buyer.None? ==> forall k :: 0 <= k < |members| ==> !WillBuy(agents[members[k]], g, price)
    ensures buyer.Some? ==> exists k :: 0 <= k < |members| && members[k] == buyer.value &&
                              WillBuy(agents[members[k]], g, price) &&
                              forall j :: 0 <= j < k ==> !WillBuy(agents[members[j]], g, price)
  {
    hide WillBuy;
    for k := 0 to |members|
      invariant forall j :: 0 <= j < k ==> !WillBuy(agents[members[j]], g, price)
    {
      if WillBuy(agents[members[k]], g, price) {
        return Some(members[k]);
      }
    }
    return None;
  }

  /** The market fee on a direct sale. */
  function Fee(price: nat): (fee: nat)
    requires price >= 1
    ensures 1 <= fee <= price
  {
    AtLeastOne(Trunc(price as real * AGNOSIS * 0.1))
  }

  /** One direct sale: the buyer pays the price, the merchant gets it less the fee. */
  function DirectSale(agents: seq<Agent>, buyer: nat, merchant: nat, price: nat): seq<Agent>
    requires buyer < |agents| && merchant < |agents| && price >= 1 && agents[buyer].wealth >= price
  {
    var paid := agents[buyer := Debit(agents[buyer], price)];
    paid[merchant := Credit(paid[merchant], price - Fee(price))]
  }

  lemma DirectSaleTotal(agents: seq<Agent>, buyer: nat, merchant: nat, price: nat)
    requires buyer < |agents| && merchant < |agents| && price >= 1 && agents[buyer].wealth >= price
    ensures var out := DirectSale(agents, buyer, merchant, price);
            && Total(out, WealthOf) + Fee(price) == Total(agents, WealthOf)
            && SameButWealth(agents, out)
            && (forall i :: 0 <= i < |out| && i != buyer && i != merchant ==> out[i] == agents[i])
            && (forall i :: 0 <= i < |out| && i != merchant ==> out[i].wealth <= agents[i].wealth)
            && (buyer != merchant ==> out[merchant].wealth == agents[merchant].wealth + price - Fee(price))
  {
    hide Fee, Total;
    var paid := agents[buyer := Debit(agents[buyer], price)];
    TotalUpdate(agents, buyer, Debit(agents[buyer], price), WealthOf);
    TotalUpdate(paid, merchant, Credit(paid[merchant], price - Fee(price)), WealthOf);
  }

  /** The outcome of trying to sell: who holds what, the local treasury, and how many units the
      treasury (`public`) and individual buyers (`direct`) took. */
  datatype Sale = Sale(out: seq<Agent>, treasury: nat, public: nat, direct: nat)

  ghost predicate SoldUnits(agents: seq<Agent>, members: seq<nat>, merchant: nat, treasury: nat, price: nat, s: Sale)
    requires price >= 1 && merchant < |agents|
  {
    && SameButWealth(agents, s.out)
    && Total(s.out, WealthOf) + s.treasury == Total(agents, WealthOf) + treasury
    && s.treasury + s.public * price == treasury + s.direct * Fee(price)
    && (forall i :: 0 <= i < |agents| && i !in members && i != merchant ==> s.out[i] == agents[i])
    && (forall i :: 0 <= i < |agents| && i != merchant ==> s.out[i].wealth <= agents[i].wealth)
    && (merchant !in members ==>
          s.out[merchant].wealth == agents[merchant].wealth + s.public * price + s.direct * (price - Fee(price)))
  }

  ghost predicate NoBuyer(agents: seq<Agent>, members: seq<nat>, g: Good, price: nat) {
    forall k :: 0 <= k < |members| && members[k] < |agents| ==> !WillBuy(agents[members[k]], g, price)
  }

  lemma SoldPublic(agents: seq<Agent>, members: seq<nat>, merchant: nat, treasury: nat, price: nat, s: Sale)
    requires price >= 1 && merchant < |agents| && SoldUnits(agents, members, merchant, treasury, price, s)
    requires s.treasury >= price
    ensures SoldUnits(agents, members, merchant, treasury, price,
                      Sale(s.out[merchant := Credit(s.out[merchant], price)], s.treasury - price, s.public + 1, s.direct))
  {
    hide Fee, Total;
    TotalUpdate(s.out, merchant, Credit(s.out[merchant], price), WealthOf);
    assert (s.public + 1) * price == s.public * price + price;
  }

  lemma SoldDirect(agents: seq<Agent>, members: seq<nat>, merchant: nat, treasury: nat, price: nat, s: Sale, buyer: nat)
    requires price >= 1 && merchant < |agents| && SoldUnits(agents, members, merchant, treasury, price, s)
    requires buyer < |agents| && buyer in members && s.out[buyer].wealth >= price
    ensures SoldUnits(agents, members, merchant, treasury, price,
                      Sale(DirectSale(s.out, buyer, merchant, price), s.treasury + Fee(price), s.public, s.direct + 1))
  {
    hide Fee, Total, DirectSale;
    DirectSaleTotal(s.out, buyer, merchant, price);
    var fee := Fee(price);
    assert (s.direct + 1) * fee == s.direct * fee + fee;
    assert (s.direct + 1) * (price - fee) == s.direct * (price - fee) + (price - fee);
  }

  /** Offers up to qty units of one good at a fixed price: the treasury buys while it can, then
      individuals do, each sale paying a fee that may let the treasury buy again. Selling stops
      early only when neither the treasury nor anybody in town can take a unit. */
  method SellUnits(agents: seq<Agent>, members: seq<nat>, merchant: nat, treasury: nat, g: Good, price: nat, qty: nat)
    returns (s: Sale)
    requires ValidMembers(agents, members) && merchant < |agents| && price >= 1
    ensures SoldUnits(agents, members, merchant, treasury, price, s)
    ensures s.public + s.direct <= qty
    ensures s.public + s.direct < qty ==> s.treasury < price && NoBuyer(s.out, members, g, price)
  {
    hide Fee, Total, DirectSale, WillBuy, Distinct;
    s := Sale(agents, treasury, 0, 0);
    for u := 0 to qty
      invariant SoldUnits(agents, members, merchant, treasury, price, s)
      invariant s.public + s.direct == u
    {
      if s.treasury >= price {
        SoldPublic(agents, members, merchant, treasury, price, s);
        s := Sale(s.out[merchant := Credit(s.out[merchant], price)], s.treasury - price, s.public + 1, s.direct);
      } else {
        var buyer := FindDirectBuyer(s.out, members, g, price);
        if buyer.None? { break; }
        assert WillBuy(s.out[buyer.value], g, price);
        CanPay(s.out[buyer.value], g, price);
        SoldDirect(agents, members, merchant, treasury, price, s, buyer.value);
        s := Sale(DirectSale(s.out, buyer.value, merchant, price), s.treasury + Fee(price), s.public, s.direct + 1);
      }
    }
  }

  lemma CanPay(a: Agent, g: Good, price: nat)
    requires WillBuy(a, g, price)
    ensures a.wealth >= price
  {
  }

  // ----- The whole cargo and the guild's commission ------------------------------

  /** Totals over a sale of many goods. */
  ghost predicate SoldCargo(agents: seq<Agent>, members: seq<nat>, merchant: nat, treasury: nat,
                            out: seq<Agent>, treasury': nat, revenue: nat)
    requires merchant < |agents|
  {
    && SameButWealth(agents, out)
    && Total(out, WealthOf) + treasury' == Total(agents, WealthOf) + treasury
    && (forall i :: 0 <= i < |agents| && i !in members && i != merchant ==> out[i] == agents[i])
    && (forall i :: 0 <= i < |agents| && i != merchant ==> out[i].wealth <= agents[i].wealth)
    && (merchant !in members ==> out[merchant].wealth == agents[merchant].wealth + revenue)
  }

  /** Good g was offered between two points of a cargo sale: at the local rounded price, as many
      units as the treasury or anybody in town would take. */
  ghost predicate GoodOffered(members: seq<nat>, merchant: nat, g: Good, price: nat, qty: nat, before: Sale, after: Sale)
    requires price >= 1 && merchant < |before.out|
  {
    && SoldUnits(before.out, members, merchant, before.treasury, price, after)
    && after.public + after.direct <= qty
    && (after.public + after.direct < qty ==> after.treasury < price && NoBuyer(after.out, members, g, price))
  }

  function Takings(s: Sale, price: nat): nat
    requires price >= 1
  {
    s.public * price + s.direct * (price - Fee(price))
  }

  /** The revenue of the first n goods of a sale. */
  ghost function TakingsTo(trail: seq<Sale>, market: Market, n: nat): nat
    requires n < |trail| && n <= NUM_GOODS
  {
    if n == 0 then 0 else TakingsTo(trail, market, n - 1) + Takings(trail[n], Rounded(market[n - 1].price, 1))
  }

  ghost predicate CargoTrail(members: seq<nat>, merchant: nat, cargo: Goods, market: Market, trail: seq<Sale>, n: nat) {
    && n < |trail| && n <= NUM_GOODS
    && (forall g :: 0 <= g < n ==>
          && merchant < |trail[g].out|
          && GoodOffered(members, merchant, g, Rounded(market[g].price, 1), cargo[g], trail[g], trail[g + 1]))
  }

  /** The whole cargo was offered, good by good. */
  ghost predicate CargoSold(agents: seq<Agent>, members: seq<nat>, merchant: nat, treasury: nat, cargo: Goods,
                            market: Market, out: seq<Agent>, treasury': nat, revenue: nat) {
    exists trail: seq<Sale> ::
      && CargoTrail(members, merchant, cargo, market, trail, NUM_GOODS)
      && trail[0] == Sale(agents, treasury, 0, 0)
      && trail[NUM_GOODS].out == out && trail[NUM_GOODS].treasury == treasury'
      && revenue == TakingsTo(trail, market, NUM_GOODS)
  }

  method SellCargo(agents: seq<Agent>, members: seq<nat>, merchant: nat, treasury: nat, cargo: Goods, market: Market)
    returns (out: seq<Agent>, treasury': nat, revenue: nat)
    requires ValidMembers(agents, members) && merchant < |agents|
    ensures SoldCargo(agents, members, merchant, treasury, out, treasury', revenue)
    ensures CargoSold(agents, members, merchant, treasury, cargo, market, out, treasury', revenue)
  {
    hide Fee, Total, WillBuy, NoBuyer, Distinct, SoldUnits, TakingsTo, CargoTrail;
    out, treasury', revenue := agents, treasury, 0;
    ghost var trail := [Sale(agents, treasury, 0, 0)];
    TrailStart(members, merchant, cargo, market, trail);
    for g := 0 to NUM_GOODS
      invariant |trail| == g + 1 && trail[0] == Sale(agents, treasury, 0, 0)
      invariant trail[g].out == out && trail[g].treasury == treasury'
      invariant SoldCargo(agents, members, merchant, treasury, out, treasury', revenue)
      invariant CargoTrail(members, merchant, cargo, market, trail, g)
      invariant revenue == TakingsTo(trail, market, g)
    {
      var price := Rounded(market[g].price, 1);
      var s := SellUnits(out, members, merchant, treasury', g, price, cargo[g]);
      SoldCargoStep(agents, members, merchant, treasury, out, treasury', revenue, price, s);
      TrailStep(members, merchant, cargo, market, trail, g, s);
      out, treasury', revenue := s.out, s.treasury, revenue + Takings(s, price);
      trail := trail + [s];
    }
  }

  lemma TrailStart(members: seq<nat>, merchant: nat, cargo: Goods, market: Market, trail: seq<Sale>)
    requires |trail| > 0
    ensures CargoTrail(members, merchant, cargo, market, trail, 0) && TakingsTo(trail, market, 0) == 0
  {
  }

  lemma TrailStep(members: seq<nat>, merchant: nat, cargo: Goods, market: Market, trail: seq<Sale>, g: Good, s: Sale)
    requires |trail| == g + 1 && merchant < |trail[g].out|
    requires CargoTrail(members, merchant, cargo, market, trail, g)
    requires GoodOffered(members, merchant, g, Rounded(market[g].price, 1), cargo[g], trail[g], s)
    ensures CargoTrail(members, merchant, cargo, market, trail + [s], g + 1)
    ensures TakingsTo(trail + [s], market, g + 1) ==
            TakingsTo(trail, market, g) + Takings(s, Rounded(market[g].price, 1))
  {
    hide GoodOffered;
    TakingsAgree(trail, trail + [s], market, g);
  }

  lemma {:induction false} TakingsAgree(trail: seq<Sale>, longer: seq<Sale>, market: Market, n: nat)
    requires n < |trail| && n <= NUM_GOODS && trail <= longer
    ensures TakingsTo(trail, market, n) == TakingsTo(longer, market, n)
  {
    if n > 0 {
      TakingsAgree(trail, longer, market, n - 1);
    }
  }

  lemma SoldCargoStep(agents: seq<Agent>, members: seq<nat>, merchant: nat, treasury: nat,
                      out: seq<Agent>, treasury': nat, revenue: nat, price: nat, s: Sale)
    requires merchant < |agents| && price >= 1
    requires SoldCargo(agents, members, merchant, treasury, out, treasury', revenue)
    requires SoldUnits(out, members, merchant, treasury', price, s)
    ensures SoldCargo(agents, members, merchant, treasury, s.out, s.treasury, revenue + Takings(s, price))
  {
    hide Fee, Total;
  }

  /** A Tier 2 merchant in town other than the seller. */
  predicate GuildMaster(a: Agent, i: nat, seller: nat) {
    a.tier == 2 && a.occupation == Merchant && a.alive && i != seller
  }

  function CommissionDue(revenue: nat, coherence: real): nat
    requires coherence >= 0.0
  {
    Trunc(revenue as real * AGNOSIS * 0.1 * (1.0 + coherence))
  }

  function CommissionCap(revenue: nat): (cap: nat)
    ensures revenue > 0 ==> cap < revenue
  {
    Trunc(revenue as real * AGNOSIS + 0.5)
  }

  /** How far the commission has got: guild masters among `visited` have received `paid` in all
      from the seller, nobody more than its due. */
  ghost predicate Commissioned(agents: seq<Agent>, visited: seq<nat>, seller: nat, revenue: nat,
                               out: seq<Agent>, paid: nat)
    requires seller < |agents|
  {
    && SameButWealth(agents, out)
    && Total(out, WealthOf) == Total(agents, WealthOf)
    && out[seller].wealth + paid == agents[seller].wealth
    && (forall i :: 0 <= i < |agents| && i != seller ==>
          && agents[i].wealth <= out[i].wealth
          && (out[i] != agents[i] ==>
                i in visited && GuildMaster(agents[i], i, seller) && agents[i].coherence >= 0.0 &&
                out[i].wealth <= agents[i].wealth + CommissionDue(revenue, agents[i].coherence)))
  }

  /** Everyone visited who is due a commission got all of it. */
  ghost predicate PaidInFull(agents: seq<Agent>, visited: seq<nat>, seller: nat, revenue: nat, out: seq<Agent>)
    requires |out| == |agents|
  {
    forall i :: i in visited && i < |agents| && GuildMaster(agents[i], i, seller) && agents[i].coherence >= 0.0 ==>
      out[i].wealth == agents[i].wealth + CommissionDue(revenue, agents[i].coherence)
  }

  lemma CommissionStart(agents: seq<Agent>, seller: nat, revenue: nat)
    requires seller < |agents|
    ensures Commissioned(agents, [], seller, revenue, agents, 0)
    ensures PaidInFull(agents, [], seller, revenue, agents)
  {
  }

  /** What a commission that stopped after n members means for the whole list. */
  lemma CommissionedFacts(agents: seq<Agent>, members: seq<nat>, n: nat, seller: nat, revenue: nat,
                          out: seq<Agent>, paid: nat)
    requires seller < |agents| && n <= |members| && Commissioned(agents, members[..n], seller, revenue, out, paid)
    ensures Commissioned(agents, members, seller, revenue, out, paid)
    ensures SameButWealth(agents, out)
    ensures forall i, j :: 0 <= i < |out| ==> GuildMaster(out[i], i, j) == GuildMaster(agents[i], i, j)
  {
    hide Total, CommissionDue;
  }

  lemma CommissionStep(agents: seq<Agent>, visited: seq<nat>, seller: nat, revenue: nat, out: seq<Agent>, paid: nat,
                       i: nat, amount: nat)
    requires seller < |agents| && Commissioned(agents, visited, seller, revenue, out, paid)
    requires i < |agents| && i !in visited && GuildMaster(agents[i], i, seller) && agents[i].coherence >= 0.0
    requires amount <= CommissionDue(revenue, agents[i].coherence) && amount <= out[seller].wealth
    ensures var out' := out[seller := Debit(out[seller], amount)][i := Credit(out[i], amount)];
            && out'[seller].wealth == out[seller].wealth - amount
            && Commissioned(agents, visited + [i], seller, revenue, out', paid + amount)
            && (amount == CommissionDue(revenue, agents[i].coherence) && PaidInFull(agents, visited, seller, revenue, out) ==>
                  PaidInFull(agents, visited + [i], seller, revenue, out'))
  {
    hide Total, CommissionDue;
    assert out[i] == agents[i];
    TotalUpdate2(out, seller, Debit(out[seller], amount), i, Credit(out[i], amount), WealthOf);
  }

  lemma CommissionSkip(agents: seq<Agent>, visited: seq<nat>, seller: nat, revenue: nat, out: seq<Agent>, paid: nat, i: nat)
    requires seller < |agents| && Commissioned(agents, visited, seller, revenue, out, paid)
    requires i < |agents| && i !in visited
    requires GuildMaster(agents[i], i, seller) && agents[i].coherence >= 0.0 ==>
               CommissionDue(revenue, agents[i].coherence) == 0
    ensures Commissioned(agents, visited + [i], seller, revenue, out, paid)
    ensures PaidInFull(agents, visited, seller, revenue, out) ==> PaidInFull(agents, visited + [i], seller, revenue, out)
  {
    hide Total, CommissionDue;
  }

  /** The guild's cut of a sale. The seller pays exactly what the guild masters receive, less than
      the revenue itself; all of them get their due unless the cap is reached or the seller is out
      of money. */
  method PayCommission(agents: seq<Agent>, members: seq<nat>, seller: nat, revenue: nat)
    returns (out: seq<Agent>, paid: nat)
    requires ValidMembers(agents, members) && seller < |agents| && revenue > 0
    requires forall i :: 0 <= i < |agents| ==> agents[i].coherence >= 0.0
    ensures Commissioned(agents, members, seller, revenue, out, paid)
    ensures paid <= CommissionCap(revenue) < revenue
    ensures PaidInFull(agents, members, seller, revenue, out) || paid == CommissionCap(revenue) || out[seller].wealth == 0
  {
    hide Total, CommissionDue, CommissionCap, Commissioned, PaidInFull, GuildMaster;
    var cap := CommissionCap(revenue);
    out, paid := agents, 0;
    CommissionStart(agents, seller, revenue);
    ghost var n := 0;
    if cap == 0 {
      CommissionedFacts(agents, members, 0, seller, revenue, out, paid);
      return;
    }
    for k := 0 to |members|
      invariant n == k && |out| == |agents| && paid < cap
      invariant Commissioned(agents, members[..n], seller, revenue, out, paid)
      invariant PaidInFull(agents, members[..n], seller, revenue, out) || out[seller].wealth == 0
    {
      var i := members[k];
      assert members[..k + 1] == members[..k] + [i] && i !in members[..k];
      CommissionedFacts(agents, members, k, seller, revenue, out, paid);
      n := k + 1;
      var due := CommissionDue(revenue, out[i].coherence);
      if !GuildMaster(out[i], i, seller) || due == 0 {
        CommissionSkip(agents, members[..k], seller, revenue, out, paid, i);
      } else {
        var amount := if paid + due > cap then cap - paid else due;
        if amount > out[seller].wealth { amount := out[seller].wealth; }
        CommissionStep(agents, members[..k], seller, revenue, out, paid, i, amount);
        if amount == 0 { n := k; break; }
        out := out[seller := Debit(out[seller], amount)][i := Credit(out[i], amount)];
        paid := paid + amount;
        if paid >= cap { break; }
      }
    }
    CommissionedFacts(agents, members, n, seller, revenue, out, paid);
    assert members[..|members|] == members;
  }

  // ----- A merchant's hour -------------------------------------------------------

  const TICKS_PER_HOUR: nat := 60

  const EMPTY: Goods := seq(NUM_GOODS, _ => 0)

  /** An opportunity the merchant settled on: what to carry, where, and the travel time in ticks. */
  datatype Trip = Trip(good: Good, dest: nat, travel: nat)

  /** A sale at the destination followed by the guild's commission. */
  ghost predicate SaleOutcome(agents: seq<Agent>, members: seq<nat>, i: nat, treasury: nat, cargo: Goods, market: Market,
                              out: seq<Agent>, treasury': nat, mid: seq<Agent>, revenue: nat, commission: nat) {
    && i < |mid| && |out| == |mid|
    && CargoSold(agents, members, i, treasury, cargo, market, mid, treasury', revenue)
    && (if revenue == 0 then out == mid && commission == 0
        else && Commissioned(mid, members, i, revenue, out, commission)
             && commission <= CommissionCap(revenue) < revenue
             && (PaidInFull(mid, members, i, revenue, out) || commission == CommissionCap(revenue) || out[i].wealth == 0))
  }

  ghost predicate SoldAt(agents: seq<Agent>, members: seq<nat>, i: nat, treasury: nat, cargo: Goods, market: Market,
                         out: seq<Agent>, treasury': nat) {
    exists mid, revenue: nat, commission: nat ::
      SaleOutcome(agents, members, i, treasury, cargo, market, out, treasury', mid, revenue, commission)
  }

  method SellMerchantCargo(agents: seq<Agent>, members: seq<nat>, i: nat, treasury: nat, cargo: Goods, market: Market)
    returns (out: seq<Agent>, treasury': nat)
    requires ValidMembers(agents, members) && i < |agents|
    requires forall k :: 0 <= k < |agents| ==> agents[k].coherence >= 0.0
    ensures SoldAt(agents, members, i, treasury, cargo, market, out, treasury')
    ensures SameButWealth(agents, out)
    ensures Total(out, WealthOf) + treasury' == Total(agents, WealthOf) + treasury
    ensures agents[i].alive ==> DeadGainNothing(agents, out)
  {
    hide Total, CargoSold, Distinct, PaidInFull, CommissionCap;
    var mid, revenue;
    mid, treasury', revenue := SellCargo(agents, members, i, treasury, cargo, market);
    out := mid;
    ghost var commission := 0;
    if revenue > 0 {
      var paid;
      out, paid := PayCommission(mid, members, i, revenue);
      commission := paid;
    }
    assert SaleOutcome(agents, members, i, treasury, cargo, market, out, treasury', mid, revenue, commission);
  }
}
