# Crossworlds in Dafny

A Dafny model of the hard core of Crossworlds, a tick-driven world simulation: its crown economy and
order-matching market, its merchants, its weekly protocol of treaties, raids, routes and pacts, the
indexes that say who lives where, and a few small structures with strong promises (the memory
stream, the rate limiter, the Gini coefficient, weighted hex assignment, greedy routing).

`dafny verify dfyconfig.toml` checks everything.

## How to read it

- Crowns, goods and counters are `nat`, so every subtraction is proved not to wrap. Prices, rates and
  sentiments are `real`. `uint64(x)` is the floor of x, and the phi constants are their printed decimals.
- Pointers are indices into sequences, so that two names for one agent are the same index.
- Loops over Go maps visit the keys in an arbitrary order, so what is proved holds for every order.
- Procedures of the source that update objects are methods of classes: `Ledger.Simulation` (purses and
  treasuries), `Membership.Census` (lists and population counters), `Abandonment.Registry` (joined in `Lifecycle`),
  `Warfare.Conflict`, `TradeRoutes.RouteTable`, `Diplomacy.Chancery`, `MemoryStream.Stream` and
  `RateLimiter.Limiter`. Loops over values are methods on sequences and maps.
- A pass over all settlements or all agents is a run of the operation for one of them. The run
  theorems (`Ledger.Simulation.Run`, `Membership.Census.Run`) allow any sequence of operations.

## Main results

1. **Closed economy.** Over any sequence of markets, merchant hours, taxes, public works, wealth decay,
   wages, stipends, food purchases, dues, patronage, plunder, deaths, foundings and abandonments,
   births, moves and compactions, crowns in circulation plus crowns ever fronted on consignment change by exactly
   what newcomers bring less the losses of four named leaks. There are none when homes are registered, no settlement
   is its own heir and the dead hold nothing at first; then the dead never hold anything. Nothing leaves the
   range of a `uint64`, each merchant owes what was fronted to it less what it repaid, and prices
   stay in their bands (`Ledger.Simulation.Run`).
2. **Order matching** conserves crowns and every good, leaves every seller its reserve, lets nobody
   trade with itself, and is maximal (`Matching.MatchGood`, `MarketRound.ResolveSettlementMarket`).
3. **War exhaustion.** On every run, whatever the relations and the willingness to raid, a pair raids
   at most three times in any ten consecutive weeks, and both limits are reached (`Warfare.Conflict.Week`).
4. **Membership.** On every run the settlement lists partition the living by home and counters never fall
   below what they count. They are exact unless somebody died since the last recount (`Membership.Census.Run`),
   so the weekly order lets abandonment and forgetting conserve treasuries while anybody is left (`Lifecycle.Week`).
5. **Histories.** What a trade route or an agreement of a given level must have seen, and exactly how
   long it survives neglect (`TradeRoutes`, `Diplomacy`).
6. **Equivalences.** The one-pass Gini formula is the pairwise definition, exactly as long as its 64-bit sum fits. The circuit breaker never acts.
   Sweeping the rate limiter never shows. The memory stream holds the 50 most important memories.

## Where the code and its documentation differ

The model follows the code.

- A consignment debits the treasury and credits nobody (internal/engine/market.go:933-935), although the
  economy is described as conserving crowns. `Merchants.BuyCargo` states exactly when loading conserves
  them, and `Merchants.ConsignmentLeaks` gives a case where 30 crowns vanish.
- README.md:29 calls taxes and wealth decay sinks. In the code both flow into settlement treasuries. Decay and
  inheritance lose crowns exactly when the agent's home is not registered (`Ledger.HomelessLoses`). The living
  keep registered homes on every run of the membership passes, so only an agent without any home gets there.
- A treaty of eight weeks blocks seven raid phases, because the call that forms it also ticks it
  (internal/engine/peace.go:60-77).
- An alliance is documented to dissolve below Matter. Downgrades are only considered below Psyche
  (internal/engine/diplomacy.go:100, 129-131), so it falls exactly there.
- Route levels are documented to need consecutive weeks. A weak week takes one week off instead
  (internal/engine/trade_routes.go:99-103).
- Abandonment loses crowns when the population counter of an empty settlement is stale, because the settlement then
  inherits from itself just before its treasury is zeroed (`Abandonment.StaleCounterLeaks`). The weekly tick does
  not get there: it recounts at internal/engine/simulation.go:553, nobody dies in the passes up to abandonment at
  line 563, and `Lifecycle.Week` proves that this order conserves treasuries.
- The Gini coefficient's rank-weighted sum is a `uint64` and wraps for purses that fit one together
  (`Inequality.GiniWraps`). `Inequality.GiniIsExactIff` gives the exact condition.
- Forgetting a ghost settlement drops whatever it holds. Abandonment has emptied it by then, unless nobody lives in
  any settlement: then every treasury is lost (`Lifecycle.EndWeek`).
- The check for 20 living agents before a diaspora never decides anything: fewer than 106 always yield
  fewer than the 25 emigrants required (`Membership.Census.Overmass`).

## Model

| member | source | states |
|---|---|---|
| Pricing.NewMarket | internal/economy/goods.go:28-62 | A fresh market lists every good at its base price, inside its band |
| Pricing.ResolvePrice | internal/economy/goods.go:67-86 | Whatever supply, demand, season and region, the resolved price lies within base * Agnosis and base * Totality |
| Pricing.BandStep | internal/engine/market.go:233-280 | Clearing-price blends, surplus decay, aggregation and the breaker all keep a price within base * Agnosis and base * Totality |
| Pricing.Run | internal/engine/market.go:233-280 | So does any sequence of these steps |
| Pricing.BreakerIdle | internal/engine/perpetuation.go:31-66 | An entry in its band is left alone by both branches of the circuit breaker |
| Pricing.BreakerIsIdle | internal/engine/perpetuation.go:31-66 | Deleting every circuit-breaker step from a run changes no entry |
| Matching.BestRecipe | internal/engine/market.go:377-408 | The recipe chosen has the highest score, and the first such wins |
| Matching.CrafterRecipeDemand | internal/engine/market.go:377-419 | The loop returns exactly the missing inputs of the best recipe |
| Matching.NoSelfTrade | internal/engine/market.go:284-419 | Whatever its inventory and trade, an agent never bids for a good it has to offer |
| Matching.CollectSells | internal/engine/market.go:101-126 | Exactly the living members with a surplus offer, each once, and each its whole surplus |
| Matching.CollectBuys | internal/engine/market.go:128-149 | Each living member bids once for every mention of the good in its demand, and nobody else bids |
| Matching.TradeUnitConserves | internal/engine/market.go:207-218 | One trade conserves crowns and units of the good |
| Matching.MatchedTrade | internal/engine/market.go:186-230 | A trade keeps the two-pointer invariant: every purse and stock follows from the units bought and sold so far |
| Matching.MatchedEnd | internal/engine/market.go:186-230 | When the loop ends the invariant gives conservation, the offers as limits, and maximality |
| Matching.MatchGood | internal/engine/market.go:156-230 | All pay one price, crowns and units are conserved, no seller sells more than it offered, and unless all supply is sold every unfilled bid belongs to an agent who ends too poor for it |
| MarketRound.CollectOrders | internal/engine/market.go:101-169 | The books of all goods hold exactly the surpluses and demands before the round |
| MarketRound.ReferencePrices | internal/engine/market.go:44-98 | Supply and demand aggregate the books, and every reference price is positive |
| MarketRound.BookSound | internal/engine/market.go:101-230 | Clearing other goods first leaves a book fulfillable and free of self-trade |
| MarketRound.ClearedStep | internal/engine/market.go:175-230 | Clearing one more good leaves every agent its reserve of it and bystanders untouched |
| MarketRound.ClearGood | internal/engine/market.go:156-255 | One good cleared within the round, with its average price blended into a price still in its band |
| MarketRound.DecayPrices | internal/engine/market.go:265-280 | Every entry gets its surplus decay and stays in its band |
| MarketRound.ResolveSettlementMarket | internal/engine/market.go:38-281 | For every order of the goods a round conserves crowns and all goods, keeps all reserves, leaves bystanders alone, keeps prices in band, and clears every good maximally |
| Payout.PaidToBounds | internal/engine/market.go:482-509 | Floored shares fall short of the exact ones by less than a crown each and never exceed the budget |
| Payout.ShareMonotone | internal/engine/factions.go:552-576 | A larger weight never earns less |
| Payout.PayProportionally | internal/engine/market.go:482-509 | The early exit never happens, all recipients get their floored share, and the total lies in (budget - recipients, budget] |
| Fiscal.TaxDue | internal/engine/market.go:441-452 | A tax is at most the wealth, and zero exactly at or below the threshold |
| Fiscal.LevyTaxes | internal/engine/market.go:436-456 | Every living member above the threshold pays its due, and the revenue is exactly what was paid |
| Fiscal.FindPovertyLine | internal/engine/market.go:466-480 | The loop finds the poverty line from the mean wealth of the living |
| Fiscal.Needy | internal/engine/market.go:482-495 | The recipients are exactly the poor, each once, weighted by need |
| Fiscal.PoorerNeverGetsLess | internal/engine/market.go:482-509 | Of two members the poorer, if alive, never gains less from public works than the richer |
| Fiscal.PublicWorks | internal/engine/market.go:458-511 | Public works pay the poor in proportion to need from the treasury and no more than it holds |
| Fiscal.PayInOrder | internal/engine/market.go:621-641 | Payments go down the list and stop exactly where the next would exceed the budget or the treasury |
| Fiscal.OutflowRate | internal/engine/market.go:564-579 | The outflow rate lies between 0.5% and Agnosis |
| Fiscal.WageList | internal/engine/market.go:622-631 | The loop computes each worker's wage from its weight and the budget |
| Fiscal.PayWages | internal/engine/market.go:586-642 | Wages are paid in list order within budget and treasury, and purses gain exactly what is paid |
| Fiscal.Soldiers | internal/engine/market.go:655-662 | Exactly the living soldiers, each once |
| Fiscal.PayStipends | internal/engine/market.go:649-702 | Soldiers are paid in order within the treasury, and purses gain exactly what is paid |
| Merchants.BuyCargo | internal/engine/market.go:918-940 | Five units at most, from the purse first and on consignment after; crowns are conserved if and only if nothing is fronted, which depends on both purses as stated |
| Merchants.ConsignmentLeaks | internal/engine/market.go:928-940 | A concrete purchase after which 30 crowns are gone |
| Merchants.LoadedUnique | internal/engine/market.go:918-940 | The specification of loading allows one outcome only |
| Merchants.Provision | internal/engine/market.go:957-981 | Food for the road moves crowns to the treasury one for one, for as many meals as can be paid |
| Merchants.FindDirectBuyer | internal/engine/market.go:1156-1183 | The first living member able and willing to buy, and none only if there is none |
| Merchants.Fee | internal/engine/market.go:1099-1105 | The fee is at least one crown and at most the price |
| Merchants.SellUnits | internal/engine/market.go:1082-1111 | Treasury first, then individuals; selling stops early only when neither can take a unit |
| Merchants.SellCargo | internal/engine/market.go:1074-1112 | The sales of all goods are chained, and purses and treasury change by exactly the sales made |
| Merchants.PayCommission | internal/engine/market.go:1188-1236 | The seller pays what the guild masters receive, less than the revenue; all get their due unless the cap or the seller's purse is exhausted |
| Merchants.SellMerchantCargo | internal/engine/market.go:1074-1151 | Sale and commission together conserve crowns |
| Ledger.Simulation.constructor | internal/engine/simulation.go:238-273 | A new world has every market at base prices and every list holding exactly the agents at home there, in order |
| Ledger.Simulation.CollectTaxes | internal/engine/market.go:433-513 | Taxes and public works of a settlement conserve crowns, and what each did is given |
| Ledger.DecayFits | internal/engine/market.go:520-546 | For every 64-bit purse the logarithmic decay takes at least one crown and never reaches below 20 |
| Ledger.Simulation.DecayWealth | internal/engine/market.go:520-546 | Decay flows to the home treasury; exactly the decay of an agent without a registered home is lost |
| Ledger.Simulation.PurseBound | internal/engine/market.go:520-546 | No purse exceeds all crowns together |
| Ledger.Simulation.PaySettlementWages | internal/engine/market.go:551-643 | Wages conserve crowns and never overdraw the treasury |
| Ledger.Simulation.PayGarrisonStipends | internal/engine/market.go:649-702 | Stipends conserve crowns and never overdraw the treasury |
| Ledger.Simulation.ResolveBuyFood | internal/engine/market.go:707-757 | The cheaper food is bought from the home market, or grain is foraged for nothing; crowns are conserved |
| Ledger.DuesDue | internal/engine/factions.go:303-316 | Dues are at most the wealth and zero exactly for at most 30 crowns |
| Ledger.Simulation.CollectFactionDues | internal/engine/factions.go:296-320 | Dues of a living member reach the faction, and crowns are conserved |
| Ledger.Recipients | internal/engine/factions.go:520-536 | The recipients are exactly the living members with a positive weight |
| Ledger.Simulation.DistributeFactionPatronage | internal/engine/factions.go:514-590 | Patronage conserves crowns and pays all recipients their floored share |
| Ledger.Simulation.Plunder | internal/engine/warfare.go:263-269 | Loot moves from loser to winner and never empties the loser |
| Ledger.FindHeir | internal/engine/simulation.go:629-637 | The first living member other than the deceased, and none only if there is none |
| Ledger.Bequeath | internal/engine/simulation.go:623-641 | Half to the treasury and half to the heir, or all to the treasury; nothing is lost in the division |
| Ledger.Simulation.InheritWealth | internal/engine/simulation.go:613-659 | Who gets what; exactly the estate of an agent without a registered home is lost; the dead gain nothing |
| Ledger.Simulation.Die | internal/engine/simulation.go:377-404 | The agent is marked dead, ends without crowns, and passes its estate on; the dead of before still hold nothing if they held nothing |
| Ledger.Simulation.ResolveMarket | internal/engine/market.go:27-281 | An hour's market keeps the ledger |
| Ledger.Simulation.Arrive | internal/engine/market.go:816-840 | Selling, repaying the smaller of debt and purse, and becoming free; crowns are conserved |
| Ledger.Simulation.Depart | internal/engine/market.go:918-988 | Loading, debt and provisions; circulation falls by exactly what is fronted |
| Ledger.Simulation.MerchantHour | internal/engine/market.go:800-988 | Travel, arrival or departure; after an arrival the merchant is out of debt or out of money |
| Ledger.PoolWealth | internal/engine/settlement_lifecycle.go:124-130 | Each emigrant gives a third, and the pool is exactly what they gave |
| Ledger.Simulation.PoolDiaspora | internal/engine/settlement_lifecycle.go:122-149 | A founding conserves crowns and moves exactly the emigrants |
| Ledger.Simulation.HandOver | internal/engine/settlement_lifecycle.go:194-219 | Sharing out and zeroing a treasury loses exactly what the settlement itself was given |
| Ledger.Simulation.Step | internal/engine/market.go:433-988 | One operation of any kind loses crowns if and only if it is one of four named leaks, and mints exactly what a newcomer brings |
| Ledger.Simulation.Join | internal/engine/population.go:476-488 | A newcomer joins one list and its counter, and adds exactly the crowns it brings |
| Ledger.Simulation.Live | internal/engine/simulation.go:538-564 | Moves, new lists, occupations, tax rates and counters leave every purse, treasury, debt and cargo alone |
| Ledger.RollCall | internal/engine/simulation.go:251-257 | Each list holds exactly the agents at home there, in agent order |
| Ledger.Simulation.CompactDead | internal/engine/simulation.go:1523-1571 | Exactly the living stay, in order, with rebuilt lists and counters; crowns are conserved if and only if the dead held none |
| Ledger.Simulation.Run | internal/engine/market.go:433-988 | The closed-economy law over any sequence of operations, births, moves, deaths and compactions; nothing is lost with registered homes, settlements never their own heirs and dead who held nothing at first |
| Ledger.HomelessLoses | internal/engine/market.go:538-544 | A valid world of one homeless agent whose 1000 crowns are all lost, some to decay and the rest to death |
| Abandonment.NearestActive | internal/engine/settlement_lifecycle.go:253-273 | The three nearest populated settlements in order of distance, or all if fewer |
| Abandonment.ShareOut | internal/engine/settlement_lifecycle.go:203-216 | Exactly the settlement's own share is lost, if it is among its heirs |
| Abandonment.OwnFirstHeir | internal/engine/settlement_lifecycle.go:253-273 | A settlement is its own first heir if and only if its counter is positive |
| Abandonment.Redistribute | internal/engine/settlement_lifecycle.go:199-219 | Treasuries are conserved if and only if there was nothing to share or the counter was zero |
| Abandonment.StaleCounterLeaks | internal/engine/settlement_lifecycle.go:199-219 | With a stale counter a settlement of 10 crowns is its own first heir, and 5 of them are lost |
| Abandonment.Registry.ProcessAbandonment | internal/engine/settlement_lifecycle.go:176-250 | With exact counters the weekly pass conserves treasuries, releases exactly the empty settlements, and strands no crowns while anybody is left to inherit |
| Hex.DistanceZero | internal/world/hex.go:99-121 | Distance is zero exactly for equal hexes |
| Hex.OneStep | internal/world/hex.go:79-121 | A step changes the distance by at most one, and some step reduces it |
| Hex.WalkLength | internal/world/hex.go:79-121 | No walk is shorter than the distance |
| Routing.MoveCost | internal/engine/market.go:993-1016 | Entering a hex costs between 3 and 999 |
| Routing.BestNeighbor | internal/engine/market.go:1020-1053 | The greedy choice comes one hex closer |
| Routing.RouteCost | internal/engine/market.go:1020-1053 | Greedy stepping terminates, along a walk as short as any, and the cost is that of the hexes entered |
| Routing.TravelCostBounds | internal/engine/market.go:1057-1067 | Road and route discounts keep the time between 6 and the larger of 6 and the base cost |
| Routing.MerchantTravelTicks | internal/engine/market.go:951-987 | Within the 10-hex index the time lies in [6, 9990], so the 16-bit cast is exact |
| Routing.BuildWideIndex | internal/engine/simulation.go:1454-1471 | The pair loop lists each populated pair within range once on each side, and nothing else |
| Routing.BuildTradeIndex | internal/engine/simulation.go:1473-1486 | Filtering keeps exactly the listings within trading range of a market |
| Routing.BuildSettlementNeighbors | internal/engine/simulation.go:1453-1486 | Each populated pair within ten hexes is listed once on each side; the trade index holds exactly those within five hexes whose destination has a market |
| Membership.OnOneList | internal/engine/simulation.go:1503-1517 | A living agent is on the list of its home once, and on no other |
| Membership.CountLiving | internal/engine/perpetuation.go:94-105 | Counting a list's living counts the residents of the settlement |
| Membership.Census.constructor | internal/engine/simulation.go:238-273 | From any agents with registered homes the index, lists and counters come out exact |
| Membership.Census.Recount | internal/engine/perpetuation.go:94-105 | Every counter becomes the number of residents |
| Membership.Census.Rebuild | internal/engine/simulation.go:1505-1517 | From any homes the lists become the residents in agent order, and counters exact |
| Membership.NoStaleTargets | internal/engine/simulation.go:1546-1562 | After a compaction the relationships of the living are exactly those with the living |
| Membership.Census.CompactDead | internal/engine/simulation.go:1523-1571 | Nothing happens if nobody is dead; otherwise agents and index are exactly the living in order, relationships pruned, lists rebuilt, and nobody moves |
| Membership.MovedResidents | internal/engine/settlement_lifecycle.go:599-619 | A move shifts exactly the movers between two settlements |
| Membership.EnoughCounted | internal/engine/settlement_lifecycle.go:136 | Emigrants are always covered by the unsigned counter they are subtracted from |
| Membership.Census.CascadeMigrate | internal/engine/settlement_lifecycle.go:599-619 | The partition is kept, the movers change sides, both counters follow, exact counters stay exact |
| Membership.Census.FoundSettlement | internal/engine/settlement_lifecycle.go:276-337 | The ID is new, its residents are exactly the founders, and the partition and exact counters are kept |
| Membership.SelectEmigrants | internal/engine/settlement_lifecycle.go:59-69 | The first eligible living members up to the limit |
| Membership.Census.Overmass | internal/engine/settlement_lifecycle.go:28-149 | Below 106 residents, or with nowhere to go, nothing happens; otherwise exactly the first eligible, up to Agnosis of the living, move to the new or the target settlement |
| Membership.Census.AddAgent | internal/engine/population.go:476-488 | A newcomer joins exactly one list and is counted |
| Membership.Census.Die | internal/agents/behavior.go:481-487 | A death leaves the partition of the living intact and counters too high at worst |
| Membership.Census.Resettle | internal/engine/perpetuation.go:201-213 | Homes changed one by one followed by a rebuild keep the partition and make counters exact |
| Membership.Census.CompactAbandoned | internal/engine/settlement_lifecycle.go:531-565 | Exactly the ghost settlements go, and nobody living loses a home |
| Membership.Census.Run | internal/engine/simulation.go:536-564 | The partition holds on every run, and counters are exact if no death came after the last recount |
| Lifecycle.RecountMends | internal/engine/perpetuation.go:19-27 | After a recount counters stay exact for as long as nobody dies |
| Lifecycle.AbandonEmpty | internal/engine/settlement_lifecycle.go:176-250 | On exact counters abandonment conserves treasuries, releases exactly the settlements nobody lives in and keeps counters exact |
| Lifecycle.Forget | internal/engine/settlement_lifecycle.go:531-565 | Forgetting ghost settlements loses exactly what they hold |
| Lifecycle.EndWeek | internal/engine/simulation.go:563-564 | Abandonment followed by forgetting leaves exactly the inhabited settlements, and conserves treasuries if there are any |
| Lifecycle.Week | internal/engine/simulation.go:553-564 | From any valid state the weekly order of recount, passes without deaths, abandonment and forgetting conserves treasuries if anybody lives in a settlement, and loses all of them otherwise |
| Pairs.PairKey | internal/engine/relations.go:20-30 | One ordered key per pair, whichever way it is named |
| Warfare.WearyStep | internal/engine/peace.go:51-92 | What a feud's counters say about the last weeks is kept by every week |
| Warfare.WarExhaustion | internal/engine/peace.go:41-111 | On every run of one pair, at most three raids in any ten weeks, and at least seven quiet weeks after every third raid |
| Warfare.LimitsAreTight | internal/engine/peace.go:41-111 | A run that reaches both limits |
| Warfare.FormTreaties | internal/engine/peace.go:59-73 | Exactly the pairs at the threshold without a treaty get one and have their count cleared |
| Warfare.TickTreaties | internal/engine/peace.go:75-92 | Every treaty loses a week, spent ones go, and the sentiment of their pairs heals |
| Warfare.Conflict.ProcessPeace | internal/engine/peace.go:51-101 | Every pair goes through the peace phase |
| Warfare.Conflict.ProcessWarfare | internal/engine/warfare.go:37-95 | Which pairs may raid, at most one raid a pair, all of them counted, and sentiments hardened |
| Warfare.Conflict.Week | internal/engine/simulation.go:583-588 | The war-exhaustion limits for all pairs over all weeks so far |
| TradeRoutes.RoutesAreEarned | internal/engine/trade_routes.go:57-139 | A route of level k has had at least k + 1 weeks of four trades, k - 1 of them with eight and k - 2 with sixteen, and never ends a week long dormant |
| TradeRoutes.LevelMovesByOne | internal/engine/trade_routes.go:57-139 | A level moves by at most one a week |
| TradeRoutes.RisesIff | internal/engine/trade_routes.go:61-95 | Exactly when a level rises |
| TradeRoutes.FallsIff | internal/engine/trade_routes.go:96-139 | Exactly when a level falls |
| TradeRoutes.ConsecutiveWeeksNotNeeded | internal/engine/trade_routes.go:5-8 | Four, three and four trades make an established route |
| TradeRoutes.IdleRouteVanishes | internal/engine/trade_routes.go:111-139 | An idle route loses one of its measure each week and is gone exactly when it is used up |
| TradeRoutes.TradePass | internal/engine/trade_routes.go:57-109 | The first pass updates every traded pair, in any order |
| TradeRoutes.PrunePass | internal/engine/trade_routes.go:111-139 | The second pass puts the others to sleep and prunes, in any order |
| TradeRoutes.RouteTable.ProcessTradeRoutes | internal/engine/trade_routes.go:48-139 | Every pair goes through its week, and every route is earned by its history |
| Diplomacy.HighestQualified | internal/engine/diplomacy.go:110-127 | The scan finds the highest agreement a pair qualifies for |
| Diplomacy.DropsIff | internal/engine/diplomacy.go:96-155 | An agreement drops at most one level a week, and exactly below Psyche and its own threshold |
| Diplomacy.DropsAreCold | internal/engine/diplomacy.go:96-155 | Over any run an agreement loses no more levels than there are weeks below Psyche |
| Diplomacy.AllianceFallsIff | internal/engine/diplomacy.go:61-82 | An alliance falls exactly below Psyche, not below Matter |
| Diplomacy.AllianceNeedsTheCap | internal/engine/diplomacy.go:61-82 | With sentiments of at most 1 no run reaches an alliance without a week at 1 |
| Diplomacy.PactHolds | internal/engine/diplomacy.go:96-155 | Over any run between Agnosis and Psyche nothing forms, higher agreements come down a level a week to a trade pact, and a trade pact does not change |
| Diplomacy.RisingIsEarned | internal/engine/diplomacy.go:96-128 | Rising to level t takes t + 1 warm weeks since the record began or last fell, and this week's sentiment at the threshold |
| Diplomacy.ColdDissolves | internal/engine/diplomacy.go:129-154 | Below Agnosis an agreement of level t is gone after exactly t weeks |
| Diplomacy.RelationPass | internal/engine/diplomacy.go:96-155 | Every pair with a relation goes through its week, in any order |
| Diplomacy.Chancery.ProcessDiplomacy | internal/engine/diplomacy.go:87-166 | Every pair goes through its week, agreements without a relation end, and every rise of a level is earned by the pair's own history |
| Inequality.PairSumPermutes | internal/engine/simulation.go:1115-1138 | The pairwise sum does not depend on the order of the purses |
| Inequality.RanksGivePairs | internal/engine/simulation.go:1115-1138 | On a sorted list the rank-weighted sum determines the sum over all pairs |
| Inequality.RankIsPairwise | internal/engine/simulation.go:1115-1138 | The rank formula equals the pairwise Gini coefficient |
| Inequality.Sorted | internal/engine/simulation.go:1125 | The ascending permutation of the purses |
| Inequality.GiniIsExactIff | internal/engine/simulation.go:1126-1137 | The exact condition for the wrapped computation to be right |
| Inequality.GiniBounds | internal/engine/simulation.go:1115-1138 | The coefficient lies in [0, (n - 1)/n] |
| Inequality.RankSumFits | internal/engine/simulation.go:1126-1132 | The rank-weighted sum is at most n times the total |
| Inequality.GiniWraps | internal/engine/simulation.go:1126-1137 | Purses of 2^63 - 1 and 2^63 crowns fit together, and yield at most -1 |
| Inequality.GiniCoefficient | internal/engine/simulation.go:1115-1138 | With the sums wrapped to 64 bits: the result is the pairwise Gini coefficient if and only if the rank-weighted sum fits, given that the total does; if n times the total fits it lies in [0, (n - 1)/n] |
| Inequality.TopShare | internal/engine/simulation.go:1142-1172 | The richest hold at least their fair share |
| Inequality.WealthDistribution | internal/engine/simulation.go:1142-1172 | Both shares from wrapped 64-bit sums; as long as the wealth of the living fits, the poorer half holds at most one half and the richest tenth at least its fraction |
| HexAssignment.ComputeHexDistribution | internal/engine/simulation.go:1408-1443 | Exactly the viable hexes get slots, each as many as its weight |
| HexAssignment.OwnerIsUnique | internal/engine/simulation.go:1395-1402 | A slot has one owner |
| HexAssignment.PickEntry | internal/engine/simulation.go:1395-1402 | The scan finds the owner of an agent's slot, so the fall-through is unreachable |
| HexAssignment.FairAssignment | internal/engine/simulation.go:1395-1402 | Any full round of consecutive agent IDs puts exactly its weight in workers on each hex |
| MemoryStream.Stream.AddMemory | internal/agents/memory.go:21-50 | Older visions fade under a new one, a full stream replaces its first weakest memory only by a stronger one, and without visions the stream always holds the best of all memories so far |
| MemoryStream.StreamHoldsBest | internal/agents/memory.go:33-49 | After any non-vision memories the stream holds, above every importance, as many as were offered there up to 50: the 50 largest |
| RateLimiter.Limiter.Allow | internal/api/ratelimit.go:44-61 | The answer and the new bucket; with a monotone clock the answer is that of a table never swept, and no window ever admits twice the limit |
| RateLimiter.RetryAfterIsRight | internal/api/ratelimit.go:63-77 | After a refusal waiting as told is enough, and more than a second less never is |
| RateLimiter.Limiter.Cleanup | internal/api/ratelimit.go:79-89 | Exactly the buckets older than two windows go, and every bucket stays what its trace makes it |
| RateLimiter.SweepsAreInvisible | internal/api/ratelimit.go:44-89 | Carrying out sweeps anywhere in a trace changes no answer |
| RateLimiter.RateIsBounded | internal/api/ratelimit.go:44-61 | On every trace with a monotone clock fewer than twice the limit of one address's requests are admitted in any window-length interval |
| RateLimiter.BoundIsReached | internal/api/ratelimit.go:44-61 | For every limit and window of at least two ticks some trace reaches that bound |

## Left out

- Ledger.Simulation.Run: asks that all crowns together, with those newcomers bring, fit a `uint64`; beyond that the source's own sums would wrap. Settlements are not removed within a run; what that loses is the subject of Lifecycle.
- Ledger.Simulation.Depart: the opportunity search (internal/engine/market.go:847-903) is an input, namely the destination, good and travel time chosen.
- Ledger.Simulation.DistributeFactionPatronage: the members' weights are inputs.
- Ledger.Simulation.HandOver: takes any list of heirs; who they are is the subject of Abandonment.
- Ledger.DecayFits: the logarithm is any function within the bounds IsLog2 states, and is not computed.
- Ledger.Simulation.PoolDiaspora: takes emigrants the population counter covers, which Membership.EnoughCounted proves.
- Warfare.Conflict.ProcessWarfare: whose raid evaluation succeeds and which raids are fought are inputs; strength, casualties, trauma and hex capture are not modelled.
- Warfare.Conflict.Week: the recomputed relations are inputs, and treaties made by oracles are excluded.
- TradeRoutes.RoutesAreEarned: oracle blessings, which raise a level directly, are excluded.
- MemoryStream.StreamHoldsBest: speaks of memories that are not visions; a vision fades earlier ones, which AddMemory states.
- Membership.Census.Overmass: age and role of an agent, the search for a founding hex and the choice of a cascade target are inputs.
- Inequality.Sorted: an insertion sort in place of the library's.
- Deliberate mints and sinks other than what newcomers bring: discoveries, disasters, roads, walls, irrigation, administrative edits.
- tier2MarketSell and the market's production side.
- Relation scores, crime bonus cache, embargoes and the other effects of agreements.
- Needs, mood, coherence, mortality, births, seasons and weather.
- Language models, narration, the web server other than its rate limiter, persistence.
- Floating-point rounding, and 32-bit overflow of population counters from above.
- Markets with missing goods: every market lists all fifteen.
- Which of several equally distant settlements an unstable sort puts first: Abandonment admits any.
- Locks of the rate limiter: its operations are taken to be atomic, as the mutex makes them.
