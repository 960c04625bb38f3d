/** The records that hold crowns and goods. A pointer to an agent, settlement or
    faction is its index in a sequence of records, so two pointers alias exactly
    when the indices are equal. */
module Accounts {
  datatype Option<+T> = None | Some(value: T)

  const NUM_GOODS: nat := 15

  type Good = g: nat | g < NUM_GOODS
  type Goods = s: seq<nat> | |s| == NUM_GOODS witness seq(NUM_GOODS, _ => 0)

  const GRAIN: Good := 0
  const TIMBER: Good := 1
  const IRON_ORE: Good := 2
  const FISH: Good := 4
  const HERBS: Good := 5
  const GEMS: Good := 6
  const FURS: Good := 7
  const COAL: Good := 8
  const EXOTICS: Good := 9
  const TOOLS: Good := 10

  datatype Occupation =
    Farmer | Miner | Crafter | Merchant | Soldier | Scholar | Alchemist | Laborer | Fisher | Hunter

  datatype Agent = Agent(
    alive: bool,
    wealth: nat,
    occupation: Occupation,
    tier: nat,
    inventory: Goods,
    home: Option<nat>,
    faction: Option<nat>,
    dest: Option<nat>,      // TradeDestSett
    cargo: Goods,           // TradeCargo
    travel: nat,            // TravelTicksLeft
    debt: nat,              // ConsignmentDebt
    survival: real,         // Needs.Survival
    coherence: real)        // Soul.CittaCoherence

  datatype Entry = Entry(supply: real, demand: real, price: real, basePrice: real)

  type Market = m: seq<Entry> | |m| == NUM_GOODS witness seq(NUM_GOODS, _ => Entry(1.0, 1.0, 1.0, 1.0))

  datatype Settlement = Settlement(treasury: nat, taxRate: real, population: nat, market: Option<Market>)

  datatype Faction = Faction(treasury: nat)

  /** Nobody came to life or died, and no dead agent holds more than before. */
  ghost predicate DeadGainNothing(agents: seq<Agent>, out: seq<Agent>) {
    && |out| == |agents|
    && (forall i :: 0 <= i < |out| ==>
          out[i].alive == agents[i].alive && (agents[i].alive || out[i].wealth <= agents[i].wealth))
  }

  function WealthOf(a: Agent): nat { a.wealth }

  function TreasuryOf(s: Settlement): nat { s.treasury }

  function FundsOf(f: Faction): nat { f.treasury }

  function Holding(g: Good): Agent -> nat { (a: Agent) => a.inventory[g] }

  /** The sum of f over the first n records. */
  function SumTo<T>(s: seq<T>, n: nat, f: T -> nat): nat
    requires n <= |s|
  {
    if n == 0 then 0 else SumTo(s, n - 1, f) + f(s[n - 1])
  }

  function Total<T>(s: seq<T>, f: T -> nat): nat {
    SumTo(s, |s|, f)
  }

  lemma {:induction false} SumToUpdate<T>(s: seq<T>, n: nat, i: nat, x: T, f: T -> nat)
    requires n <= |s| && i < |s|
    ensures SumTo(s[i := x], n, f) == if i < n then SumTo(s, n, f) - f(s[i]) + f(x) else SumTo(s, n, f)
  {
    if n > 0 {
      SumToUpdate(s, n - 1, i, x, f);
    }
  }

  /** Overwriting one record changes the total by that record's difference. */
  lemma TotalUpdate<T>(s: seq<T>, i: nat, x: T, f: T -> nat)
    requires i < |s|
    ensures Total(s[i := x], f) == Total(s, f) - f(s[i]) + f(x)
  {
    SumToUpdate(s, |s|, i, x, f);
  }

  lemma TotalUpdate2<T>(s: seq<T>, i: nat, x: T, j: nat, y: T, f: T -> nat)
    requires i < |s| && j < |s| && i != j
    ensures Total(s[i := x][j := y], f) == Total(s, f) - f(s[i]) - f(s[j]) + f(x) + f(y)
  {
    TotalUpdate(s, i, x, f);
    TotalUpdate(s[i := x], j, y, f);
  }

  lemma {:induction false} SumToAgree<T>(s: seq<T>, t: seq<T>, n: nat, f: T -> nat)
    requires n <= |s| && n <= |t|
    requires forall k :: 0 <= k < n ==> f(s[k]) == f(t[k])
    ensures SumTo(s, n, f) == SumTo(t, n, f)
  {
    if n > 0 {
      SumToAgree(s, t, n - 1, f);
    }
  }

  lemma {:induction false} SumToGrows<T>(s: seq<T>, m: nat, n: nat, f: T -> nat)
    requires m <= n <= |s|
    ensures SumTo(s, m, f) <= SumTo(s, n, f)
  {
    if m < n {
      SumToGrows(s, m, n - 1, f);
    }
  }

  lemma TotalAppend<T>(s: seq<T>, x: T, f: T -> nat)
    ensures Total(s + [x], f) == Total(s, f) + f(x)
  {
    SumToAgree(s, s + [x], |s|, f);
  }

  /** Each record is at most the sum of any prefix that holds it. */
  lemma {:induction false} SumToBounds<T>(s: seq<T>, n: nat, i: nat, f: T -> nat)
    requires i < n <= |s|
    ensures f(s[i]) <= SumTo(s, n, f)
  {
    if i < n - 1 {
      SumToBounds(s, n - 1, i, f);
    }
  }

  const UINT64: nat := 0x1_0000_0000_0000_0000

  function Same(n: nat): nat { n }

  function Min(a: nat, b: nat): nat { if a < b then a else b }

  /** uint64(x) for a non-negative float. */
  function Trunc(x: real): (r: nat)
    requires x >= 0.0
    ensures r as real <= x < r as real + 1.0
  {
    x.Floor
  }

  lemma TruncAtMost(x: real, n: nat)
    requires 0.0 <= x <= n as real
    ensures Trunc(x) <= n
  {
  }

  /** uint64(price + 0.5), never below `least`. Prices are never negative. */
  function Rounded(price: real, least: nat): (r: nat)
    ensures r >= least
  {
    var c := if price < 0.0 then 0 else Trunc(price + 0.5);
    if c < least then least else c
  }

  function Count<T(==)>(s: seq<T>, x: T): nat { multiset(s)[x] }

  lemma CountConcat<T>(s: seq<T>, t: seq<T>)
    ensures forall x: T {:trigger Count(s + t, x)} :: Count(s + t, x) == Count(s, x) + Count(t, x)
  {
    assert multiset(s + t) == multiset(s) + multiset(t);
  }

  predicate Distinct<T(==)>(s: seq<T>) {
    forall i, j :: 0 <= i < j < |s| ==> s[i] != s[j]
  }
}
