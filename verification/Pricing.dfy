/** Price formation: internal/economy/goods.go, the price updates of
    internal/engine/market.go and the circuit breaker of internal/engine/perpetuation.go. */
module Pricing {
  import opened Accounts
  import opened Phi

  const BASE_PRICES: seq<real> :=
    [2.0, 3.0, 4.0, 3.0, 2.0, 5.0, 15.0, 6.0, 4.0, 20.0, 10.0, 15.0, 8.0, 12.0, 25.0]

  function Clamp(x: real, base: real): real {
    var low, high := base * AGNOSIS, base * TOTALITY;
    var y := if x < low then low else x;
    if y > high then high else y
  }

  /** Supply against demand, held between Agnosis and Totality times the production cost whatever the two are. */
  function ResolvePrice(e: Entry, seasonal: real, regional: real): (price: real)
    ensures e.basePrice >= 0.0 ==> e.basePrice * AGNOSIS <= price <= e.basePrice * TOTALITY
  {
    var supply := if e.supply < AGNOSIS then AGNOSIS else e.supply;
    Clamp(e.basePrice * (e.demand / supply) * seasonal * regional, e.basePrice)
  }

  /** The price lies between Agnosis and Totality times the production cost. */
  ghost predicate InBand(e: Entry) {
    e.basePrice > 0.0 && e.basePrice * AGNOSIS <= e.price <= e.basePrice * TOTALITY
  }

  ghost predicate MarketInBand(m: Market) {
    forall g: Good :: InBand(m[g])
  }

  method NewMarket() returns (m: Market)
    ensures MarketInBand(m)
    ensures forall g: Good :: m[g] == Entry(1.0, 1.0, BASE_PRICES[g], BASE_PRICES[g])
  {
    var entries: seq<Entry> := [];
    for g := 0 to NUM_GOODS
      invariant |entries| == g
      invariant forall k :: 0 <= k < g ==> entries[k] == Entry(1.0, 1.0, BASE_PRICES[k], BASE_PRICES[k])
    {
      entries := entries + [Entry(1.0, 1.0, BASE_PRICES[g], BASE_PRICES[g])];
    }
    m := entries;
  }

  /** 70% old price, 30% average clearing price, clamped. */
  function Blend(e: Entry, avgClear: real): Entry {
    e.(price := Clamp(e.price * 0.7 + avgClear * 0.3, e.basePrice))
  }

  function DecaySurplus(e: Entry, population: nat): Entry {
    if e.supply > population as real * BEING && e.supply > 100.0 && e.price > e.basePrice * AGNOSIS then
      var p := e.price - e.price * AGNOSIS * 0.01;
      e.(price := if p < e.basePrice * AGNOSIS then e.basePrice * AGNOSIS else p)
    else e
  }

  function CircuitBreaker(e: Entry): Entry
    requires e.basePrice > 0.0
  {
    var ratio := e.price / e.basePrice;
    var e1 := if ratio > COMPLETION then
                var s := e.(supply := e.supply + e.demand * 0.5);
                s.(price := ResolvePrice(s, 1.0, 1.0))
              else e;
    if ratio < AGNOSIS then
      var half := e1.supply * 0.5;
      var s := e1.(supply := if half < 1.0 then 1.0 else half);
      s.(price := ResolvePrice(s, 1.0, 1.0))
    else e1
  }

  /** Everything that ever writes a market entry. */
  datatype PriceStep =
    | Aggregate(supply: real, demand: real)
    | Clear(avgClear: real)
    | Decay(population: nat)
    | Breaker

  function Apply(e: Entry, step: PriceStep): Entry
    requires e.basePrice > 0.0
  {
    match step
    case Aggregate(s, d) => e.(supply := s, demand := d)
    case Clear(avg) => Blend(e, avg)
    case Decay(pop) => DecaySurplus(e, pop)
    case Breaker => CircuitBreaker(e)
  }

  lemma BreakerIdle(e: Entry)
    requires InBand(e)
    ensures CircuitBreaker(e) == e
  {
    var ratio := e.price / e.basePrice;
    assert e.price == ratio * e.basePrice;
    assert ratio >= AGNOSIS;
    assert ratio <= TOTALITY;
  }

  /** Every step keeps the price in its band. */
  lemma BandStep(e: Entry, step: PriceStep)
    requires InBand(e)
    ensures InBand(Apply(e, step)) && Apply(e, step).basePrice == e.basePrice
  {
    BreakerIdle(e);
  }

  ghost function Run(e: Entry, steps: seq<PriceStep>): (r: Entry)
    requires InBand(e)
    ensures InBand(r) && r.basePrice == e.basePrice
    decreases |steps|
  {
    if steps == [] then e
    else
      BandStep(e, steps[0]);
      Run(Apply(e, steps[0]), steps[1..])
  }

  /** On every run from a fresh market the circuit breaker can be left out: it is never
      the step that changes an entry. */
  lemma {:induction false} BreakerIsIdle(e: Entry, steps: seq<PriceStep>)
    requires InBand(e)
    ensures Run(e, steps) == Run(e, WithoutBreaker(steps))
    decreases |steps|
  {
    if steps != [] {
      BandStep(e, steps[0]);
      BreakerIdle(e);
      BreakerIsIdle(Apply(e, steps[0]), steps[1..]);
      var rest := WithoutBreaker(steps[1..]);
      if steps[0].Breaker? {
        assert WithoutBreaker(steps) == rest;
      } else {
        assert WithoutBreaker(steps) == [steps[0]] + rest;
        assert WithoutBreaker(steps)[1..] == rest;
      }
    }
  }

  function WithoutBreaker(steps: seq<PriceStep>): seq<PriceStep> {
    if steps == [] then []
    else (if steps[0].Breaker? then [] else [steps[0]]) + WithoutBreaker(steps[1..])
  }
}
