/** The simulation's purse strings as one object: every operation of internal/engine that is
    meant to be a closed transfer of crowns, and what any run of them preserves. */
module Ledger {
  import opened Accounts
  import opened Rosters
  import opened Phi
  import opened Pricing
  import opened Payout
  import opened Matching
  import opened MarketRound
  import opened Fiscal
  import opened Merchants
  import opened Abandonment

  function Load(cargo: Goods): nat { Total(cargo, Same) }

  lemma {:induction false} EmptyLoad(n: nat)
    requires n <= NUM_GOODS
    ensures SumTo(EMPTY, n, Same) == 0
    ensures n == NUM_GOODS ==> Load(EMPTY) == 0
  {
    if n > 0 {
      EmptyLoad(n - 1);
    }
  }

  lemma LoadOne(cargo: Goods, g: Good, n: nat)
    requires Load(cargo) == 0
    ensures cargo[g] == 0 && Load(cargo[g := n]) == n
  {
    SumToBounds(cargo, NUM_GOODS, g, Same);
    TotalUpdate(cargo, g, n, Same);
  }

  /** A merchant has a destination exactly while it carries cargo, at most five units of it, and
      owes what was fronted to it less what it repaid. */
  ghost predicate AgentOk(a: Agent, fronted: nat, repaid: nat) {
    && a.coherence >= 0.0
    && a.debt + repaid == fronted
    && (a.dest.Some? <==> Load(a.cargo) > 0)
    && Load(a.cargo) <= CARGO_UNITS
  }

  ghost predicate AgentsOk(agents: seq<Agent>, fronted: seq<nat>, repaid: seq<nat>) {
    && |fronted| == |repaid| == |agents|
    && (forall i :: 0 <= i < |agents| ==> AgentOk(agents[i], fronted[i], repaid[i]))
  }

  ghost predicate MembersOk(agents: seq<Agent>, members: seq<seq<nat>>, n: nat) {
    |members| == n && forall s :: 0 <= s < |members| ==> ValidMembers(agents, members[s])
  }

  ghost predicate SettOk(t: Settlement) {
    t.taxRate >= 0.0 && (t.market.Some? ==> MarketInBand(t.market.value))
  }

  ghost predicate SettsOk(setts: seq<Settlement>) {
    forall s :: 0 <= s < |setts| ==> SettOk(setts[s])
  }

  ghost predicate SameButHoldings(agents: seq<Agent>, out: seq<Agent>) {
    && |out| == |agents|
    && (forall i :: 0 <= i < |out| ==> out[i] == agents[i].(wealth := out[i].wealth, inventory := out[i].inventory))
  }

  ghost predicate SameHomes(agents: seq<Agent>, out: seq<Agent>) {
    |out| == |agents| && forall i :: 0 <= i < |out| ==> out[i].home == agents[i].home
  }

  lemma HoldingsKeepHomes(agents: seq<Agent>, out: seq<Agent>)
    requires SameButHoldings(agents, out)
    ensures SameHomes(agents, out)
  {
  }

  lemma HoldingsKeepValid(agents: seq<Agent>, out: seq<Agent>, members: seq<seq<nat>>, n: nat,
                          fronted: seq<nat>, repaid: seq<nat>)
    requires AgentsOk(agents, fronted, repaid) && MembersOk(agents, members, n)
    requires SameButHoldings(agents, out)
    ensures AgentsOk(out, fronted, repaid) && MembersOk(out, members, n)
  {
    hide Load, Distinct;
  }

  lemma SettKeepsValid(setts: seq<Settlement>, s: nat, t: Settlement)
    requires SettsOk(setts) && s < |setts| && SettOk(t)
    ensures SettsOk(setts[s := t])
    ensures Total(setts[s := t], TreasuryOf) == Total(setts, TreasuryOf) - setts[s].treasury + t.treasury
  {
    hide Total, SettOk;
    TotalUpdate(setts, s, t, TreasuryOf);
  }

  lemma SettsAppend(setts: seq<Settlement>, t: Settlement)
    requires SettsOk(setts) && SettOk(t)
    ensures SettsOk(setts + [t])
  {
    hide SettOk;
  }

  lemma WealthChange(agents: seq<Agent>, i: nat, a: Agent)
    requires i < |agents| && a == agents[i].(wealth := a.wealth, inventory := a.inventory)
    ensures SameButHoldings(agents, agents[i := a])
    ensures Total(agents[i := a], WealthOf) == Total(agents, WealthOf) - agents[i].wealth + a.wealth
  {
    hide Total;
    TotalUpdate(agents, i, a, WealthOf);
  }

  lemma TaxedFrame(agents: seq<Agent>, members: seq<nat>, rate: real)
    requires rate >= 0.0
    ensures SameButWealth(agents, Taxed(agents, members, rate))
  {
    hide TaxDue;
  }

  lemma HoldingsFrame(agents: seq<Agent>, mid: seq<Agent>, out: seq<Agent>)
    requires SameButWealth(agents, mid) && SameButWealth(mid, out)
    ensures SameButHoldings(agents, out) && SameButHoldings(agents, mid)
  {
  }

  // ----- Wealth decay ------------------------------------------------------------

  /** What the model needs to know of the base-2 logarithm: its range on [1, 2^60]. */
  ghost predicate IsLog2(log2: real -> real) {
    forall x :: 1.0 <= x <= 1152921504606846976.0 ==> 0.0 <= log2(x) <= 60.0
  }

  function DecayRate(wealth: nat, log2: real -> real): real {
    AGNOSIS * 0.01 * (1.0 + AGNOSIS * log2(wealth as real / 20.0))
  }

  lemma DecayRateBound(wealth: nat, log2: real -> real)
    requires 20 < wealth < UINT64 && IsLog2(log2)
    ensures 0.0 <= DecayRate(wealth, log2) <= 1.0
  {
    var x := wealth as real / 20.0;
    assert 1.0 <= x <= 1152921504606846976.0;
    assert 0.0 <= log2(x) <= 60.0;
  }

  /** The daily decay never exceeds what a 64-bit purse holds above 20 crowns. */
  lemma DecayFits(wealth: nat, log2: real -> real)
    requires 20 < wealth < UINT64 && IsLog2(log2)
    ensures 0.0 <= (wealth - 20) as real * DecayRate(wealth, log2)
    ensures 1 <= DecayDue(wealth, log2) <= wealth - 20
  {
    hide DecayRate;
    DecayRateBound(wealth, log2);
    var over: nat := wealth - 20;
    var x, r := over as real, DecayRate(wealth, log2);
    Scaled(x, r);
    assert x * r <= over as real;
    TruncAtMost(x * r, over);
  }

  lemma Scaled(x: real, r: real)
    requires x >= 0.0 && 0.0 <= r <= 1.0
    ensures 0.0 <= x * r <= x
  {
  }

  function DecayDue(wealth: nat, log2: real -> real): nat
    requires 20 < wealth && (wealth - 20) as real * DecayRate(wealth, log2) >= 0.0
  {
    AtLeastOne(Trunc((wealth - 20) as real * DecayRate(wealth, log2)))
  }

  function DuesDue(wealth: nat): (dues: nat)
    ensures dues <= wealth
    ensures dues == 0 <==> wealth <= 30
  {
    if wealth <= 30 then 0 else Min(wealth, AtLeastOne(Trunc(wealth as real * AGNOSIS * 0.01)))
  }

  predicate Decays(a: Agent) { a.alive && a.wealth > 20 }

  predicate Housed(a: Agent, n: nat) { a.home.Some? && a.home.value < n }

  function Deposit(setts: seq<Settlement>, s: nat, crowns: nat): seq<Settlement>
    requires s < |setts|
  {
    setts[s := setts[s].(treasury := setts[s].treasury + crowns)]
  }

  lemma DepositNothing(setts: seq<Settlement>, home: Option<nat>)
    ensures home.Some? && home.value < |setts| ==> Deposit(setts, home.value, 0) == setts
  {
  }

  lemma SameHoldings(agents: seq<Agent>)
    ensures SameButHoldings(agents, agents)
  {
  }

  lemma SameMembers(agents: seq<Agent>, out: seq<Agent>, members: seq<seq<nat>>, n: nat)
    requires MembersOk(agents, members, n) && |out| == |agents|
    ensures MembersOk(out, members, n)
  {
    hide Distinct;
  }

  lemma LoadedSum(wealth: nat, treasury: nat, price: nat, wealth': nat, treasury': nat, own: nat, fronted: nat)
    requires Loaded(wealth, treasury, price, wealth', treasury', own, fronted)
    ensures wealth' + treasury' + fronted * price == wealth + treasury && own + fronted <= CARGO_UNITS
    ensures own + fronted == 0 ==> fronted * price == 0 && wealth' == wealth && treasury' == treasury
    ensures own + fronted == 0 <==> wealth < price && treasury < price
  {
    assert own > 0 ==> own * price >= price;
    assert fronted > 0 ==> fronted * price >= price;
  }

  /** An emigrant puts a third of its wealth into the new settlement's treasury. */
  function Emigrated(a: Agent, home: nat): Agent {
    a.(wealth := a.wealth - a.wealth / 3, home := Some(home))
  }

  method PoolWealth(agents: seq<Agent>, emigrants: seq<nat>, home: nat) returns (out: seq<Agent>, pooled: nat)
    requires ValidMembers(agents, emigrants)
    ensures |out| == |agents|
    ensures forall i :: 0 <= i < |out| ==> out[i] == if i in emigrants then Emigrated(agents[i], home) else agents[i]
    ensures Total(out, WealthOf) + pooled == Total(agents, WealthOf)
  {
    hide Total;
    out, pooled := agents, 0;
    for k := 0 to |emigrants|
      invariant |out| == |agents|
      invariant forall i :: 0 <= i < |out| ==>
        out[i] == if i in emigrants[..k] then Emigrated(agents[i], home) else agents[i]
      invariant Total(out, WealthOf) + pooled == Total(agents, WealthOf)
    {
      var i := emigrants[k];
      assert emigrants[..k + 1] == emigrants[..k] + [i];
      assert i !in emigrants[..k];
      TotalUpdate(out, i, Emigrated(out[i], home), WealthOf);
      pooled := pooled + out[i].wealth / 3;
      out := out[i := Emigrated(out[i], home)];
    }
    assert emigrants[..|emigrants|] == emigrants;
  }

  lemma ColonyMembers(agents: seq<Agent>, out: seq<Agent>, members: seq<seq<nat>>, n: nat, s: nat, emigrants: seq<nat>)
    requires MembersOk(agents, members, n) && s < n && ValidMembers(agents, emigrants) && |out| == |agents|
    ensures MembersOk(out, members[s := Keep(members[s], emigrants)] + [emigrants], n + 1)
  {
    KeepMembers(members[s], emigrants);
    var rest := Keep(members[s], emigrants);
    forall k | 0 <= k < |rest| ensures rest[k] < |out| { assert rest[k] in members[s]; }
    hide Distinct, Keep;
  }

  lemma EmigrantsOk(agents: seq<Agent>, out: seq<Agent>, fronted: seq<nat>, repaid: seq<nat>, emigrants: seq<nat>, home: nat)
    requires AgentsOk(agents, fronted, repaid) && |out| == |agents|
    requires forall i :: 0 <= i < |out| ==> out[i] == if i in emigrants then Emigrated(agents[i], home) else agents[i]
    ensures AgentsOk(out, fronted, repaid)
  {
    hide Load;
  }

  lemma HoldingsTrans(x: seq<Agent>, y: seq<Agent>, z: seq<Agent>)
    requires SameButHoldings(x, y) && SameButHoldings(y, z)
    ensures SameButHoldings(x, z)
  {
  }

  lemma ClearedFrame(agents: seq<Agent>, members: seq<nat>, out: seq<Agent>, order: seq<Good>)
    requires Cleared(agents, members, out, order)
    ensures SameButHoldings(agents, out) && DeadGainNothing(agents, out)
  {
  }

  /** The first living member other than the deceased. */
  ghost predicate IsHeir(agents: seq<Agent>, members: seq<nat>, i: nat, heir: Option<nat>) {
    && (heir.None? ==> forall k :: 0 <= k < |members| && members[k] < |agents| ==>
          !agents[members[k]].alive || members[k] == i)
    && (heir.Some? ==>
          && heir.value < |agents| && heir.value != i && agents[heir.value].alive
          && exists k :: 0 <= k < |members| && members[k] == heir.value &&
               forall j :: 0 <= j < k && members[j] < |agents| ==> !agents[members[j]].alive || members[j] == i)
  }

  method FindHeir(agents: seq<Agent>, members: seq<nat>, i: nat) returns (heir: Option<nat>)
    requires ValidMembers(agents, members)
    ensures IsHeir(agents, members, i, heir)
  {
    for k := 0 to |members|
      invariant forall j :: 0 <= j < k ==> !agents[members[j]].alive || members[j] == i
    {
      if agents[members[k]].alive && members[k] != i {
        return Some(members[k]);
      }
    }
    return None;
  }

  /** The estate of agent i divided between the treasury and an heir from the list. */
  method Bequeath(agents: seq<Agent>, list: seq<nat>, i: nat) returns (out: seq<Agent>, toTreasury: nat, heir: Option<nat>)
    requires ValidMembers(agents, list) && i < |agents|
    ensures var a := agents[i];
            var estate := a.(wealth := 0, inventory := seq(NUM_GOODS, _ => 0));
            && IsHeir(agents, list, i, heir)
            && (heir.Some? ==>
                  && toTreasury == a.wealth / 2
                  && out == agents[heir.value := Credit(agents[heir.value], a.wealth - a.wealth / 2)][i := estate])
            && (heir.None? ==> toTreasury == a.wealth && out == agents[i := estate])
    ensures SameButHoldings(agents, out) && DeadGainNothing(agents, out)
    ensures Total(out, WealthOf) + toTreasury == Total(agents, WealthOf)
  {
    hide Total, SameButHoldings, ValidMembers, DeadGainNothing;
    var a := agents[i];
    var estate := a.(wealth := 0, inventory := seq(NUM_GOODS, _ => 0));
    heir := FindHeir(agents, list, i);
    toTreasury, out := a.wealth, agents;
    NoneGain(agents);
    if heir.Some? {
      toTreasury := a.wealth / 2;
      var b := Credit(agents[heir.value], a.wealth - toTreasury);
      WealthChange(agents, heir.value, b);
      OneLoses(agents, heir.value, b);
      out := agents[heir.value := b];
    } else {
      SameHoldings(agents);
    }
    WealthChange(out, i, estate);
    HoldingsTrans(agents, out, out[i := estate]);
    OneLoses(out, i, estate);
    DeadGainNothingTwice(agents, out, out[i := estate]);
    out := out[i := estate];
  }

  method CountGoods(inventory: Goods) returns (n: nat)
    ensures n == Total(inventory, Same)
  {
    n := 0;
    for g := 0 to NUM_GOODS
      invariant n == SumTo(inventory, g, Same)
    {
      n := n + inventory[g];
    }
  }

  /** The goods of an estate are added to the supply of the local market, if there is one. */
  ghost predicate Restocked(t: Settlement, goods: Goods, t': Settlement) {
    && t' == t.(market := t'.market)
    && (t.market.None? ==> t'.market.None?)
    && (t.market.Some? ==>
          && t'.market.Some?
          && (forall g: Good :: t'.market.value[g] ==
                t.market.value[g].(supply := t.market.value[g].supply + goods[g] as real)))
  }

  method Restock(t: Settlement, goods: Goods) returns (t': Settlement)
    requires SettOk(t)
    ensures Restocked(t, goods, t') && SettOk(t') && t'.treasury == t.treasury
  {
    t' := t;
    if t.market.Some? {
      var m: Market := t.market.value;
      for g := 0 to NUM_GOODS
        invariant |m| == NUM_GOODS
        invariant forall k: Good :: m[k] == if k < g
          then t.market.value[k].(supply := t.market.value[k].supply + goods[k] as real) else t.market.value[k]
      {
        m := m[g := m[g].(supply := m[g].supply + goods[g] as real)];
      }
      t' := t.(market := Some(m));
    }
  }

  function CheaperFood(m: Market): Good {
    if m[GRAIN].price == 0.0 || m[FISH].price < m[GRAIN].price then FISH else GRAIN
  }

  function FoodCost(m: Market): nat {
    Rounded(m[CheaperFood(m)].price, 1)
  }

  function Eat(a: Agent, g: Good): Agent {
    a.(inventory := a.inventory[g := a.inventory[g] + 1])
  }

  function PatronageBudget(treasury: nat): (b: nat)
    ensures b <= treasury
  {
    Trunc(treasury as real * AGNOSIS * 0.1)
  }

  function Loot(treasury: nat): (loot: nat)
    ensures loot <= treasury
  {
    Min(Trunc(treasury as real * AGNOSIS * 0.5), treasury)
  }

  /** `who` lists exactly the living members of faction f with a positive weight. */
  ghost predicate AreRecipients(agents: seq<Agent>, f: nat, weights: seq<real>, who: seq<nat>, ws: seq<real>) {
    && |who| == |ws| && Distinct(who) && Positive(ws) && |weights| == |agents|
    && (forall k :: 0 <= k < |who| ==> who[k] < |agents| && ws[k] == weights[who[k]])
    && (forall i :: i in who <==>
          0 <= i < |agents| && agents[i].alive && agents[i].faction == Some(f) && weights[i] > 0.0)
  }

  method Recipients(agents: seq<Agent>, f: nat, weights: seq<real>) returns (who: seq<nat>, ws: seq<real>)
    requires |weights| == |agents|
    ensures AreRecipients(agents, f, weights, who, ws)
  {
    who, ws := [], [];
    for i := 0 to |agents|
      invariant |who| == |ws| && Distinct(who) && Positive(ws)
      invariant forall k :: 0 <= k < |who| ==> who[k] < i && ws[k] == weights[who[k]]
      invariant forall j :: j in who <==>
        0 <= j < i && agents[j].alive && agents[j].faction == Some(f) && weights[j] > 0.0
    {
      if agents[i].alive && agents[i].faction == Some(f) && weights[i] > 0.0 {
        who, ws := who + [i], ws + [weights[i]];
      }
    }
  }

  // ----- Life and death ------------------------------------------------------------------------------

  ghost predicate HousedAll(agents: seq<Agent>, n: nat) {
    forall i :: 0 <= i < |agents| ==> Housed(agents[i], n)
  }

  lemma WorldKept(agents: seq<Agent>, out: seq<Agent>, n: nat)
    requires SameHomes(agents, out) && DeadGainNothing(agents, out)
    ensures (HousedAll(agents, n) ==> HousedAll(out, n)) && (Broke(agents) ==> Broke(out))
  {
  }

  lemma NobodyMoves(agents: seq<Agent>)
    ensures SameHomes(agents, agents)
  {
  }

  lemma NoneGain(agents: seq<Agent>)
    ensures DeadGainNothing(agents, agents)
  {
  }

  lemma OneLoses(agents: seq<Agent>, i: nat, b: Agent)
    requires i < |agents| && b.alive == agents[i].alive && (b.alive || b.wealth <= agents[i].wealth)
    ensures DeadGainNothing(agents, agents[i := b])
  {
  }

  /** The dead hold no crowns. */
  ghost predicate Broke(agents: seq<Agent>) {
    forall i :: 0 <= i < |agents| ==> agents[i].alive || agents[i].wealth == 0
  }

  /** What a compaction throws away. */
  function DeadPurse(a: Agent): nat { if a.alive then 0 else a.wealth }

  lemma {:induction false} BrokeIff(agents: seq<Agent>, n: nat)
    requires n <= |agents|
    ensures SumTo(agents, n, DeadPurse) == 0 <==> Broke(agents[..n])
  {
    if n > 0 {
      BrokeIff(agents, n - 1);
      assert agents[..n] == agents[..n - 1] + [agents[n - 1]];
    }
  }

  /** The living among the first n, in order. */
  function LivingTo(agents: seq<Agent>, n: nat): seq<Agent>
    requires n <= |agents|
  {
    if n == 0 then [] else LivingTo(agents, n - 1) + if agents[n - 1].alive then [agents[n - 1]] else []
  }

  /** The entries of `notes` that belong to the living. */
  ghost function NotesTo(agents: seq<Agent>, notes: seq<nat>, n: nat): seq<nat>
    requires n <= |agents| == |notes|
  {
    if n == 0 then [] else NotesTo(agents, notes, n - 1) + if agents[n - 1].alive then [notes[n - 1]] else []
  }

  /** The sum of the entries that belong to the dead. */
  ghost function BuriedTo(agents: seq<Agent>, notes: seq<nat>, n: nat): nat
    requires n <= |agents| == |notes|
  {
    if n == 0 then 0 else BuriedTo(agents, notes, n - 1) + if agents[n - 1].alive then 0 else notes[n - 1]
  }

  lemma {:induction false} NotesTotal(agents: seq<Agent>, notes: seq<nat>, n: nat)
    requires n <= |agents| == |notes|
    ensures Total(NotesTo(agents, notes, n), Same) + BuriedTo(agents, notes, n) == SumTo(notes, n, Same)
  {
    hide Total;
    if n == 0 {
      assert Total<nat>([], Same) == 0 by { NothingTotals<nat>(Same); }
    } else {
      NotesTotal(agents, notes, n - 1);
      TotalAppend(NotesTo(agents, notes, n - 1), notes[n - 1], Same);
      assert NotesTo(agents, notes, n - 1) + [] == NotesTo(agents, notes, n - 1);
    }
  }

  lemma NothingTotals<T>(f: T -> nat)
    ensures Total([], f) == 0
  {
  }

  lemma {:induction false} LivingTotal(agents: seq<Agent>, n: nat)
    requires n <= |agents|
    ensures Total(LivingTo(agents, n), WealthOf) + SumTo(agents, n, DeadPurse) == SumTo(agents, n, WealthOf)
  {
    hide Total;
    if n == 0 {
      NothingTotals(WealthOf);
    } else {
      LivingTotal(agents, n - 1);
      TotalAppend(LivingTo(agents, n - 1), agents[n - 1], WealthOf);
      assert LivingTo(agents, n - 1) + [] == LivingTo(agents, n - 1);
    }
  }

  lemma {:induction false} LivingAccounts(agents: seq<Agent>, fronted: seq<nat>, repaid: seq<nat>, n: nat)
    requires AgentsOk(agents, fronted, repaid) && n <= |agents|
    ensures AgentsOk(LivingTo(agents, n), NotesTo(agents, fronted, n), NotesTo(agents, repaid, n))
  {
    hide AgentOk;
    if n > 0 {
      LivingAccounts(agents, fronted, repaid, n - 1);
    }
  }

  lemma {:induction false} LivingHoused(agents: seq<Agent>, n: nat, homes: nat)
    requires n <= |agents|
    ensures forall i :: 0 <= i < |LivingTo(agents, n)| ==> LivingTo(agents, n)[i].alive
    ensures HousedAll(agents[..n], homes) ==> HousedAll(LivingTo(agents, n), homes)
  {
    if n > 0 {
      LivingHoused(agents, n - 1, homes);
      assert agents[..n] == agents[..n - 1] + [agents[n - 1]];
    }
  }

  lemma {:induction false} LivingCount(agents: seq<Agent>, n: nat)
    requires n <= |agents|
    ensures |LivingTo(agents, n)| <= n
    ensures |LivingTo(agents, n)| == n <==> forall i :: 0 <= i < n ==> agents[i].alive
  {
    if n > 0 {
      LivingCount(agents, n - 1);
    }
  }

  /** The living stay in order, alive and housed, with their own accounts. */
  lemma LivingOk(agents: seq<Agent>, fronted: seq<nat>, repaid: seq<nat>, homes: nat)
    requires AgentsOk(agents, fronted, repaid)
    ensures var n := |agents|;
            && AgentsOk(LivingTo(agents, n), NotesTo(agents, fronted, n), NotesTo(agents, repaid, n))
            && Broke(LivingTo(agents, n))
            && (HousedAll(agents, homes) ==> HousedAll(LivingTo(agents, n), homes))
            && |LivingTo(agents, n)| <= n
            && (|LivingTo(agents, n)| == n <==> forall i :: 0 <= i < n ==> agents[i].alive)
  {
    hide LivingTo, NotesTo, HousedAll;
    LivingAccounts(agents, fronted, repaid, |agents|);
    LivingHoused(agents, |agents|, homes);
    LivingCount(agents, |agents|);
    assert agents[..|agents|] == agents;
  }

  lemma CompactSums(agents: seq<Agent>, fronted: seq<nat>)
    requires |fronted| == |agents|
    ensures Total(LivingTo(agents, |agents|), WealthOf) + Total(agents, DeadPurse) == Total(agents, WealthOf)
    ensures Total(NotesTo(agents, fronted, |agents|), Same) + BuriedTo(agents, fronted, |agents|) == Total(fronted, Same)
    ensures Total(agents, DeadPurse) == 0 <==> Broke(agents)
  {
    hide SumTo, LivingTo, NotesTo, BuriedTo, Broke;
    LivingTotal(agents, |agents|);
    NotesTotal(agents, fronted, |agents|);
    BrokeIff(agents, |agents|);
    assert agents[..|agents|] == agents;
  }

  lemma AllAlive(agents: seq<Agent>)
    requires forall i :: 0 <= i < |agents| ==> agents[i].alive
    ensures Broke(agents) && Total(agents, DeadPurse) == 0
  {
    BrokeIff(agents, |agents|);
    assert agents[..|agents|] == agents;
  }

  method KeepLiving(agents: seq<Agent>) returns (alive: seq<Agent>)
    ensures alive == LivingTo(agents, |agents|)
  {
    alive := [];
    for k := 0 to |agents|
      invariant alive == LivingTo(agents, k)
    {
      if agents[k].alive { alive := alive + [agents[k]]; }
    }
  }

  predicate BelongsTo(a: Agent, s: nat, onlyLiving: bool) {
    a.home == Some(s) && (a.alive || !onlyLiving)
  }

  /** Lists of members in agent order, exactly those at home there. */
  ghost predicate AreRolls(agents: seq<Agent>, n: nat, onlyLiving: bool, members: seq<seq<nat>>) {
    forall s :: 0 <= s < |members| ==>
      && (forall j, k :: 0 <= j < k < |members[s]| ==> members[s][j] < members[s][k])
      && (forall i :: i in members[s] <==> 0 <= i < n && i < |agents| && BelongsTo(agents[i], s, onlyLiving))
  }

  method RollCall(agents: seq<Agent>, n: nat, onlyLiving: bool) returns (members: seq<seq<nat>>)
    ensures |members| == n && AreRolls(agents, |agents|, onlyLiving, members) && MembersOk(agents, members, n)
  {
    members := seq(n, _ => []);
    for i := 0 to |agents|
      invariant |members| == n && AreRolls(agents, i, onlyLiving, members)
    {
      RollStep(agents, i, onlyLiving, members);
      if agents[i].home.Some? && agents[i].home.value < n && (agents[i].alive || !onlyLiving) {
        var s := agents[i].home.value;
        members := members[s := members[s] + [i]];
      }
    }
    RollsAreLists(agents, onlyLiving, members);
  }

  lemma RollStep(agents: seq<Agent>, i: nat, onlyLiving: bool, members: seq<seq<nat>>)
    requires i < |agents| && AreRolls(agents, i, onlyLiving, members)
    ensures var home := agents[i].home;
            if home.Some? && home.value < |members| && BelongsTo(agents[i], home.value, onlyLiving)
            then AreRolls(agents, i + 1, onlyLiving, members[home.value := members[home.value] + [i]])
            else AreRolls(agents, i + 1, onlyLiving, members)
  {
    forall s, k | 0 <= s < |members| && 0 <= k < |members[s]| ensures members[s][k] < i { assert members[s][k] in members[s]; }
  }

  lemma RollsAreLists(agents: seq<Agent>, onlyLiving: bool, members: seq<seq<nat>>)
    requires AreRolls(agents, |agents|, onlyLiving, members)
    ensures MembersOk(agents, members, |members|)
  {
    forall s, k | 0 <= s < |members| && 0 <= k < |members[s]| ensures members[s][k] < |agents| {
      assert members[s][k] in members[s];
    }
  }

  /** Every counter becomes the length of its list. */
  method Recounted(setts: seq<Settlement>, members: seq<seq<nat>>) returns (out: seq<Settlement>)
    requires |members| == |setts|
    ensures |out| == |setts| && forall s :: 0 <= s < |out| ==> out[s] == setts[s].(population := |members[s]|)
  {
    out := [];
    for s := 0 to |setts|
      invariant |out| == s && forall t :: 0 <= t < s ==> out[t] == setts[t].(population := |members[t]|)
    {
      out := out + [setts[s].(population := |members[s]|)];
    }
  }

  lemma RecountedOk(setts: seq<Settlement>, out: seq<Settlement>)
    requires |out| == |setts| && forall s :: 0 <= s < |out| ==> out[s] == setts[s].(population := out[s].population)
    requires SettsOk(setts)
    ensures SettsOk(out) && Total(out, TreasuryOf) == Total(setts, TreasuryOf)
  {
    hide MarketInBand;
    forall s | 0 <= s < |setts| ensures SettOk(out[s]) { assert SettOk(setts[s]); }
    SumToAgree(setts, out, |setts|, TreasuryOf);
  }

  lemma DeathOk(agents: seq<Agent>, fronted: seq<nat>, repaid: seq<nat>, i: nat)
    requires AgentsOk(agents, fronted, repaid) && i < |agents|
    ensures AgentsOk(agents[i := agents[i].(alive := false)], fronted, repaid)
  {
    hide Load;
  }

  /** What the rest of the week may do to an agent: move, work, learn and feel, but not touch purse or cargo. */
  predicate SamePurse(a: Agent, b: Agent) {
    b.alive == a.alive && b.wealth == a.wealth && b.debt == a.debt && b.dest == a.dest && b.cargo == a.cargo && b.coherence >= 0.0
  }

  predicate Reshaped(agents: seq<Agent>, out: seq<Agent>, n: nat) {
    && |out| == |agents|
    && (forall i :: 0 <= i < |agents| ==> SamePurse(agents[i], out[i]) && (Housed(agents[i], n) ==> Housed(out[i], n)))
  }

  /** And to a settlement: grow, shrink and change its tax rate. */
  predicate Reformed(setts: seq<Settlement>, out: seq<Settlement>) {
    && |out| == |setts|
    && (forall s :: 0 <= s < |setts| ==>
          out[s].treasury == setts[s].treasury && out[s].market == setts[s].market && out[s].taxRate >= 0.0)
  }

  predicate AllLists(agents: seq<Agent>, members: seq<seq<nat>>) {
    forall s :: 0 <= s < |members| ==> ValidMembers(agents, members[s])
  }

  lemma ReshapedOk(agents: seq<Agent>, out: seq<Agent>, n: nat, fronted: seq<nat>, repaid: seq<nat>)
    requires Reshaped(agents, out, n) && AgentsOk(agents, fronted, repaid)
    ensures AgentsOk(out, fronted, repaid) && Total(out, WealthOf) == Total(agents, WealthOf) && DeadGainNothing(agents, out)
  {
    SumToAgree(agents, out, |agents|, WealthOf);
  }

  lemma ReformedOk(setts: seq<Settlement>, out: seq<Settlement>)
    requires Reformed(setts, out) && SettsOk(setts)
    ensures SettsOk(out) && Total(out, TreasuryOf) == Total(setts, TreasuryOf)
  {
    hide MarketInBand;
    forall s | 0 <= s < |setts| ensures SettOk(out[s]) { assert SettOk(setts[s]); }
    SumToAgree(setts, out, |setts|, TreasuryOf);
  }

  /** A newcomer brings no debt and no cargo, and whatever crowns are minted with it. */
  predicate Newcomer(a: Agent, s: nat) {
    && a.alive && a.home == Some(s) && a.debt == 0 && a.dest.None? && a.coherence >= 0.0
    && forall g :: 0 <= g < NUM_GOODS ==> a.cargo[g] == 0
  }

  /** All that the newcomers among the first n operations could bring. */
  ghost function MintedBy(ops: seq<Op>, n: nat): nat
    requires n <= |ops|
  {
    if n == 0 then 0 else MintedBy(ops, n - 1) + if ops[n - 1].Joining? then ops[n - 1].a.wealth else 0
  }

  lemma {:induction false} MintedGrows(ops: seq<Op>, m: nat, n: nat)
    requires m <= n <= |ops|
    ensures MintedBy(ops, m) <= MintedBy(ops, n)
  {
    if m < n {
      MintedGrows(ops, m, n - 1);
    }
  }

  /** New markets for all settlements. */
  method Stocked(setts: seq<Settlement>) returns (out: seq<Settlement>)
    requires forall s :: 0 <= s < |setts| ==> setts[s].taxRate >= 0.0
    ensures |out| == |setts| && SettsOk(out)
    ensures forall s :: 0 <= s < |setts| ==> out[s].market.Some? && out[s] == setts[s].(market := out[s].market)
    ensures forall s, g: Good :: 0 <= s < |setts| ==> out[s].market.value[g] == Entry(1.0, 1.0, BASE_PRICES[g], BASE_PRICES[g])
  {
    hide MarketInBand;
    out := [];
    for s := 0 to |setts|
      invariant |out| == s && SettsOk(out)
      invariant forall t :: 0 <= t < s ==> out[t].market.Some? && out[t] == setts[t].(market := out[t].market)
      invariant forall t, g: Good :: 0 <= t < s ==> out[t].market.value[g] == Entry(1.0, 1.0, BASE_PRICES[g], BASE_PRICES[g])
    {
      var m := NewMarket();
      out := out + [setts[s].(market := Some(m))];
    }
  }

  /** One closed operation with whatever the rest of the world supplies to it. The loops over settlements,
      agents and factions are runs of these. */
  datatype Op =
    | Tax(s: nat)
    | Wage(s: nat, totalTreasury: nat, totalAgent: nat)
    | Garrison(s: nat)
    | Decay(i: nat)
    | Food(i: nat)
    | Dues(i: nat)
    | Patronage(f: nat, weights: seq<real>)
    | Raid(winner: nat, loser: nat)
    | Death(i: nat)
    | Trade(s: nat, season: seq<real>, regional: real, order: seq<Good>)
    | Merchanting(s: nat, i: nat, trip: Option<Trip>)
    | Founding(s: nat, emigrants: seq<nat>)
    | Abandoning(s: nat, near: seq<nat>)
    | Joining(a: Agent, s: nat)
    | Living(agents: seq<Agent>, setts: seq<Settlement>, members: seq<seq<nat>>)
    | Compacting

  predicate AreHeirs(setts: seq<Settlement>, near: seq<nat>) {
    near != [] && Distinct(near) && forall k :: 0 <= k < |near| ==> near[k] < |setts|
  }

  /** Exactly when an operation loses crowns. */
  ghost predicate Leaks(op: Op, agents: seq<Agent>, setts: seq<Settlement>) {
    match op
    case Decay(i) => i < |agents| && Decays(agents[i]) && !Housed(agents[i], |setts|)
    case Death(i) => i < |agents| && agents[i].wealth > 0 && !Housed(agents[i], |setts|)
    case Abandoning(s, near) => s < |setts| && AreHeirs(setts, near) && ShareOf(setts[s].treasury, near, s) > 0
    case Compacting => !Broke(agents)
    case _ => false
  }

  lemma NoLeak(op: Op, agents: seq<Agent>, setts: seq<Settlement>)
    requires HousedAll(agents, |setts|)
    requires op.Abandoning? ==> op.s !in op.near
    requires Broke(agents)
    ensures !Leaks(op, agents, setts)
  {
  }

  /** An agent without a registered home, for the two leaks that need one. */
  const HOMELESS: Agent := Agent(true, 1000, Farmer, 0, EMPTY, None, None, None, EMPTY, 0, 0, 1.0, 0.0)

  ghost predicate HeirsAreOthers(ops: seq<Op>) {
    forall k :: 0 <= k < |ops| && ops[k].Abandoning? ==> ops[k].s !in ops[k].near
  }

  class Simulation {
    var agents: seq<Agent>
    var setts: seq<Settlement>
    var factions: seq<Faction>
    var members: seq<seq<nat>>      // SettlementAgents
    ghost var fronted: seq<nat>     // crowns ever fronted on consignment, by merchant
    ghost var repaid: seq<nat>      // crowns ever repaid, by merchant
    ghost var buried: nat           // crowns ever fronted to agents since compacted away

    /** A new world: markets at base prices and lists from the agents' homes. Merchants' debts, if any, count as
        fronted and not repaid. */
    constructor (agents: seq<Agent>, setts: seq<Settlement>, factions: seq<Faction>)
      requires forall s :: 0 <= s < |setts| ==> setts[s].taxRate >= 0.0
      requires forall i :: 0 <= i < |agents| ==> AgentOk(agents[i], agents[i].debt, 0)
      ensures Valid() && this.agents == agents && this.factions == factions && |this.setts| == |setts|
      ensures forall s :: 0 <= s < |setts| ==>
                this.setts[s].market.Some? && this.setts[s] == setts[s].(market := this.setts[s].market)
      ensures forall s, g: Good :: 0 <= s < |setts| ==>
                this.setts[s].market.value[g] == Entry(1.0, 1.0, BASE_PRICES[g], BASE_PRICES[g])
      ensures |members| == |setts| && AreRolls(agents, |agents|, false, members)
    {
      var stocked := Stocked(setts);
      var rolls := RollCall(agents, |setts|, false);
      this.agents, this.setts, this.factions, this.members := agents, stocked, factions, rolls;
      fronted, repaid := seq(|agents|, i requires 0 <= i < |agents| => agents[i].debt), seq(|agents|, _ => 0);
      buried := 0;
    }

    ghost predicate Valid()
      reads this
    {
      AgentsOk(agents, fronted, repaid) && MembersOk(agents, members, |setts|) && SettsOk(setts)
    }

    /** Agent wealth, settlement treasuries and faction treasuries together. */
    ghost function Crowns(): nat
      reads this
    {
      Total(agents, WealthOf) + Total(setts, TreasuryOf) + Total(factions, FundsOf)
    }

    ghost function Fronted(): nat
      reads this
    {
      Total(fronted, Same) + buried
    }

    /** Stores new agents and a new record for settlement s. */
    method CommitSett(out: seq<Agent>, s: nat, t: Settlement)
      requires Valid() && s < |setts| && SameButHoldings(agents, out) && SettOk(t)
      modifies `agents, `setts
      ensures Valid() && agents == out && setts == old(setts)[s := t] && SameHomes(old(agents), agents)
      ensures Crowns() + old(Total(agents, WealthOf) + setts[s].treasury) ==
              old(Crowns()) + Total(out, WealthOf) + t.treasury
    {
      hide AgentsOk, MembersOk, SettsOk, SettOk, Total, SameButHoldings, MarketInBand;
      HoldingsKeepValid(agents, out, members, |setts|, fronted, repaid);
      HoldingsKeepHomes(agents, out);
      SettKeepsValid(setts, s, t);
      agents, setts := out, setts[s := t];
    }

    method Commit(out: seq<Agent>, s: nat, treasury: nat)
      requires Valid() && s < |setts| && SameButHoldings(agents, out)
      modifies `agents, `setts
      ensures Valid() && agents == out && setts == old(setts)[s := old(setts[s]).(treasury := treasury)]
      ensures SameHomes(old(agents), agents)
      ensures Crowns() + old(Total(agents, WealthOf) + setts[s].treasury) ==
              old(Crowns()) + Total(out, WealthOf) + treasury
    {
      hide AgentsOk, MembersOk, Total, SameButHoldings, MarketInBand;
      assert SettOk(setts[s]);
      CommitSett(out, s, setts[s].(treasury := treasury));
    }

    lemma MemberList(s: nat)
      requires Valid() && s < |setts|
      ensures s < |members| && ValidMembers(agents, members[s])
      ensures setts[s].taxRate >= 0.0
      ensures setts[s].market.Some? ==> MarketInBand(setts[s].market.value)
    {
      assert SettOk(setts[s]);
    }

    method CollectTaxes(s: nat) returns (ghost taxed: seq<Agent>, ghost paid: nat)
      requires Valid() && s < |setts|
      modifies `agents, `setts
      ensures Valid() && Crowns() == old(Crowns()) && SameHomes(old(agents), agents)
      ensures DeadGainNothing(old(agents), agents)
      ensures s < |members| && old(setts[s].taxRate) >= 0.0
      ensures taxed == Taxed(old(agents), members[s], old(setts[s].taxRate))
      ensures setts == old(setts)[s := setts[s]] && setts[s] == old(setts[s]).(treasury := setts[s].treasury)
      ensures var funded := old(setts[s].treasury) + old(Total(agents, WealthOf)) - Total(taxed, WealthOf);
              && funded >= 0 && setts[s].treasury == funded - paid
              && WorksDone(taxed, members[s], WorksBudget(setts[s].population, funded), agents, paid)
    {
      hide Valid, Total, WorksDone, WorksBudget, TaxDue, MarketInBand;
      MemberList(s);
      var levied, revenue := LevyTaxes(agents, members[s], setts[s].taxRate);
      TaxedFrame(agents, members[s], setts[s].taxRate);
      hide Taxed;
      var treasury := setts[s].treasury + revenue;
      var out, spent := PublicWorks(levied, members[s], setts[s].population, treasury);
      HoldingsFrame(agents, levied, out);
      TaxesSpareTheDead(agents, members[s], setts[s].taxRate);
      WorksSpareTheDead(levied, members[s], WorksBudget(setts[s].population, treasury), out, spent);
      DeadGainNothingTwice(agents, levied, out);
      hide ValidMembers, SameButHoldings, SameButWealth;
      taxed, paid := levied, spent;
      Commit(out, s, treasury - spent);
    }

    /** The daily decay of one agent's wealth flows to the home treasury. If the home is not
        registered the crowns are lost, and only then. */
    method DecayWealth(i: nat, log2: real -> real) returns (ghost due: nat)
      requires Valid() && i < |agents| && IsLog2(log2) && Crowns() < UINT64
      modifies `agents, `setts
      ensures Valid() && SameHomes(old(agents), agents)
      ensures DeadGainNothing(old(agents), agents)
      ensures !Decays(old(agents[i])) ==> due == 0
      ensures Decays(old(agents[i])) ==>
                && 20 < old(agents[i].wealth) < UINT64
                && (old(agents[i].wealth) - 20) as real * DecayRate(old(agents[i].wealth), log2) >= 0.0
                && due == DecayDue(old(agents[i].wealth), log2) && 1 <= due <= old(agents[i].wealth) - 20
      ensures due <= old(agents[i].wealth) && agents == old(agents)[i := Debit(old(agents[i]), due)]
      ensures setts == if Housed(old(agents[i]), |old(setts)|) then Deposit(old(setts), old(agents[i]).home.value, due)
                       else old(setts)
      ensures Crowns() + (if Housed(old(agents[i]), |old(setts)|) then 0 else due) == old(Crowns())
      ensures Crowns() == old(Crowns()) <==> !Decays(old(agents[i])) || Housed(old(agents[i]), |old(setts)|)
    {
      hide Valid, Total, DecayRate, DecayDue;
      var a := agents[i];
      due := 0;
      if !a.alive || a.wealth <= 20 {
        assert agents == agents[i := Debit(a, 0)];
        DepositNothing(setts, a.home);
        return;
      }
      PurseBound(i);
      DecayFits(a.wealth, log2);
      var decay := DecayDue(a.wealth, log2);
      due := decay;
      WealthChange(agents, i, Debit(a, decay));
      if a.home.Some? && a.home.value < |setts| {
        Commit(agents[i := Debit(a, decay)], a.home.value, setts[a.home.value].treasury + decay);
      } else {
        CommitAgents(agents[i := Debit(a, decay)]);
      }
    }

    /** No purse holds more than all crowns together, so while these fit a uint64 every purse
        and every sum of purses does. */
    lemma PurseBound(i: nat)
      requires i < |agents|
      ensures agents[i].wealth <= Crowns()
    {
      SumToBounds(agents, |agents|, i, WealthOf);
    }

    method CommitAgents(out: seq<Agent>)
      requires Valid() && SameButHoldings(agents, out)
      modifies `agents
      ensures Valid() && agents == out && SameHomes(old(agents), agents)
      ensures Crowns() + old(Total(agents, WealthOf)) == old(Crowns()) + Total(out, WealthOf)
    {
      HoldingsKeepValid(agents, out, members, |setts|, fronted, repaid);
      HoldingsKeepHomes(agents, out);
      agents := out;
    }

    /** Wages for one settlement. The two totals are those taken before the first settlement. */
    method PaySettlementWages(s: nat, totalTreasury: nat, totalAgent: nat) returns (ghost paid: nat)
      requires Valid() && s < |setts|
      modifies `agents, `setts
      ensures Valid() && Crowns() == old(Crowns()) && SameHomes(old(agents), agents)
      ensures DeadGainNothing(old(agents), agents)
      ensures s < |members| && paid <= old(setts[s].treasury)
      ensures setts == old(setts)[s := old(setts[s]).(treasury := old(setts[s].treasury) - paid)]
      ensures totalTreasury + totalAgent == 0 || old(setts[s].treasury) == 0 ==> agents == old(agents) && paid == 0
      ensures totalTreasury + totalAgent > 0 && old(setts[s].treasury) > 0 ==>
                WagesPaid(old(agents), members[s], old(setts[s].treasury),
                          WageBudget(old(setts[s].treasury), OutflowRate(totalTreasury, totalAgent)), agents, paid)
    {
      hide Valid, Total, WagesPaid, WageBudget, OutflowRate, ValidMembers, MarketInBand;
      MemberList(s);
      paid := 0;
      if totalTreasury + totalAgent > 0 && setts[s].treasury > 0 {
        var out, spent := PayWages(agents, members[s], setts[s].treasury, OutflowRate(totalTreasury, totalAgent));
        HoldingsFrame(agents, agents, out);
        WagesSpareTheDead(agents, members[s], setts[s].treasury,
                          WageBudget(setts[s].treasury, OutflowRate(totalTreasury, totalAgent)), out, spent);
        paid := spent;
        Commit(out, s, setts[s].treasury - spent);
      } else {
        assert setts == setts[s := setts[s].(treasury := setts[s].treasury - 0)];
      }
    }

    method PayGarrisonStipends(s: nat) returns (ghost paid: nat)
      requires Valid() && s < |setts|
      modifies `agents, `setts
      ensures Valid() && Crowns() == old(Crowns()) && SameHomes(old(agents), agents)
      ensures DeadGainNothing(old(agents), agents)
      ensures s < |members| && paid <= old(setts[s].treasury)
      ensures setts == old(setts)[s := old(setts[s]).(treasury := old(setts[s].treasury) - paid)]
      ensures old(setts[s].treasury) == 0 || old(setts[s].population) == 0 ==> agents == old(agents) && paid == 0
      ensures old(setts[s].treasury) > 0 && old(setts[s].population) > 0 ==>
                StipendsPaid(old(agents), members[s], old(setts[s].treasury),
                             Stipend(old(setts[s].treasury), old(setts[s].population)), agents, paid)
    {
      hide Valid, Total, StipendsPaid, Stipend, ValidMembers, MarketInBand;
      MemberList(s);
      paid := 0;
      if setts[s].treasury > 0 && setts[s].population > 0 {
        var out, spent := PayStipends(agents, members[s], setts[s].treasury, setts[s].population);
        HoldingsFrame(agents, agents, out);
        StipendsSpareTheDead(agents, members[s], setts[s].treasury, Stipend(setts[s].treasury, setts[s].population), out, spent);
        paid := spent;
        Commit(out, s, setts[s].treasury - spent);
      } else {
        assert setts == setts[s := setts[s].(treasury := setts[s].treasury - 0)];
      }
    }

    /** An agent buys the cheaper food from the home market, or forages a unit of grain if there is
        no market or not enough money. */
    method ResolveBuyFood(i: nat)
      requires Valid() && i < |agents|
      modifies `agents, `setts
      ensures Valid() && Crowns() == old(Crowns()) && SameHomes(old(agents), agents)
      ensures DeadGainNothing(old(agents), agents)
      ensures var a := old(agents[i]);
              if Housed(a, |old(setts)|) && old(setts)[a.home.value].market.Some? &&
                 a.wealth >= FoodCost(old(setts)[a.home.value].market.value)
              then var m := old(setts)[a.home.value].market.value;
                   && agents == old(agents)[i := Eat(Debit(a, FoodCost(m)), CheaperFood(m))]
                   && setts == Deposit(old(setts), a.home.value, FoodCost(m))
              else agents == old(agents)[i := Eat(a, GRAIN)] && setts == old(setts)
    {
      hide Valid, Total, MarketInBand;
      var a := agents[i];
      if a.home.Some? && a.home.value < |setts| && setts[a.home.value].market.Some? {
        var t := setts[a.home.value];
        var m := t.market.value;
        var cost := FoodCost(m);
        if a.wealth >= cost {
          WealthChange(agents, i, Eat(Debit(a, cost), CheaperFood(m)));
          Commit(agents[i := Eat(Debit(a, cost), CheaperFood(m))], a.home.value, t.treasury + cost);
          return;
        }
      }
      WealthChange(agents, i, Eat(a, GRAIN));
      CommitAgents(agents[i := Eat(a, GRAIN)]);
    }

    // ----- Factions ----------------------------------------------------------------

    method CommitFaction(out: seq<Agent>, f: nat, funds: nat)
      requires Valid() && f < |factions| && SameButHoldings(agents, out)
      modifies `agents, `factions
      ensures Valid() && agents == out && factions == old(factions)[f := Faction(funds)] && SameHomes(old(agents), agents)
      ensures Crowns() + old(Total(agents, WealthOf) + factions[f].treasury) ==
              old(Crowns()) + Total(out, WealthOf) + funds
    {
      HoldingsKeepValid(agents, out, members, |setts|, fronted, repaid);
      HoldingsKeepHomes(agents, out);
      hide AgentsOk, MembersOk, SettsOk, Total;
      TotalUpdate(factions, f, Faction(funds), FundsOf);
      agents, factions := out, factions[f := Faction(funds)];
    }

    method CollectFactionDues(i: nat)
      requires Valid() && i < |agents|
      modifies `agents, `factions
      ensures Valid() && Crowns() == old(Crowns()) && SameHomes(old(agents), agents)
      ensures DeadGainNothing(old(agents), agents)
      ensures var a := old(agents[i]);
              if a.alive && a.faction.Some? && a.faction.value < |old(factions)|
              then && agents == old(agents)[i := Debit(a, DuesDue(a.wealth))]
                   && factions == old(factions)[a.faction.value :=
                        Faction(old(factions)[a.faction.value].treasury + DuesDue(a.wealth))]
              else agents == old(agents) && factions == old(factions)
    {
      hide Valid, Total, DuesDue;
      var a := agents[i];
      if a.alive && a.faction.Some? && a.faction.value < |factions| {
        var dues := DuesDue(a.wealth);
        WealthChange(agents, i, Debit(a, dues));
        CommitFaction(agents[i := Debit(a, dues)], a.faction.value, factions[a.faction.value].treasury + dues);
      }
    }

    /** Patronage: a slice of the faction's treasury is split among its living members in
        proportion to their weights. */
    method DistributeFactionPatronage(f: nat, weights: seq<real>)
      returns (ghost who: seq<nat>, ghost ws: seq<real>, ghost paid: nat)
      requires Valid() && f < |factions| && |weights| == |agents|
      modifies `agents, `factions
      ensures Valid() && Crowns() == old(Crowns()) && SameHomes(old(agents), agents)
      ensures DeadGainNothing(old(agents), agents)
      ensures AreRecipients(old(agents), f, weights, who, ws)
      ensures var budget := PatronageBudget(old(factions[f].treasury));
              && paid <= budget <= old(factions[f].treasury)
              && factions == old(factions)[f := Faction(old(factions[f].treasury) - paid)]
              && (if budget == 0 || who == [] then agents == old(agents) && paid == 0
                  else && WeightTo(ws, |ws|) > 0.0 && budget - |who| < paid
                       && PaidOut(old(agents), agents, who, ws, budget, |who|))
    {
      hide Valid, Total, PaidOut;
      var rs, rws := Recipients(agents, f, weights);
      who, ws, paid := rs, rws, 0;
      var budget := PatronageBudget(factions[f].treasury);
      if budget > 0 && rs != [] {
        var out, spent := PayProportionally(agents, rs, rws, budget);
        PaidOutFrame(agents, out, rs, rws, budget);
        PaidOutSparesTheDead(agents, out, rs, rws, budget);
        HoldingsFrame(agents, agents, out);
        paid := spent;
        CommitFaction(out, f, factions[f].treasury - spent);
      } else {
        assert factions == factions[f := Faction(factions[f].treasury - 0)];
      }
    }

    // ----- War and death -------------------------------------------------------------

    /** The winner of a raid takes Agnosis/2 of the loser's treasury. */
    method Plunder(winner: nat, loser: nat)
      requires Valid() && winner < |setts| && loser < |setts| && winner != loser
      modifies `agents, `setts
      ensures Valid() && Crowns() == old(Crowns()) && agents == old(agents)
      ensures var loot := Loot(old(setts[loser].treasury));
              && (0 < old(setts[loser].treasury) ==> loot < old(setts[loser].treasury))
              && setts == Deposit(old(setts)[loser := old(setts[loser]).(treasury := old(setts[loser].treasury) - loot)],
                                  winner, loot)
    {
      hide Valid, Total, MarketInBand;
      var loot := Loot(setts[loser].treasury);
      SameHoldings(agents);
      Commit(agents, loser, setts[loser].treasury - loot);
      SameHoldings(agents);
      Commit(agents, winner, setts[winner].treasury + loot);
    }

    /** A death: half the wealth goes to the home treasury and half to the first living neighbour,
        or all of it to the treasury if there is none. Crowns are lost only when the home is not
        registered. */
    method InheritWealth(i: nat) returns (ghost heir: Option<nat>)
      requires Valid() && i < |agents|
      modifies `agents, `setts
      ensures Valid() && SameHomes(old(agents), agents)
      ensures DeadGainNothing(old(agents), agents)
      ensures var a := old(agents[i]);
              var estate := a.(wealth := 0, inventory := seq(NUM_GOODS, _ => 0));
              if a.wealth == 0 && Total(a.inventory, Same) == 0
              then agents == old(agents) && setts == old(setts)
              else if !Housed(a, |old(setts)|)
              then agents == old(agents)[i := estate] && setts == old(setts)
              else
                && a.home.value < |members|
                && IsHeir(old(agents), members[a.home.value], i, heir)
                && (heir.Some? ==> agents == old(agents)[heir.value :=
                      Credit(old(agents)[heir.value], a.wealth - a.wealth / 2)][i := estate])
                && (heir.None? ==> agents == old(agents)[i := estate])
                && setts == old(setts)[a.home.value := setts[a.home.value]]
                && Restocked(Deposit(old(setts), a.home.value, if heir.Some? then a.wealth / 2 else a.wealth)[a.home.value],
                             a.inventory, setts[a.home.value])
      ensures Crowns() + (if Housed(old(agents[i]), |old(setts)|) then 0 else old(agents[i].wealth)) == old(Crowns())
      ensures Crowns() == old(Crowns()) <==> Housed(old(agents[i]), |old(setts)|) || old(agents[i].wealth) == 0
    {
      hide Valid, Total, Restocked, SameButHoldings, ValidMembers, DeadGainNothing, IsHeir;
      var a := agents[i];
      NoneGain(agents);
      heir := None;
      var goods := CountGoods(a.inventory);
      if a.wealth == 0 && goods == 0 { return; }
      if a.home.Some? && a.home.value < |setts| {
        MemberList(a.home.value);
        var out, toTreasury, h := Bequeath(agents, members[a.home.value], i);
        heir := h;
        var t := Restock(setts[a.home.value].(treasury := setts[a.home.value].treasury + toTreasury), a.inventory);
        CommitSett(out, a.home.value, t);
      } else {
        var estate := a.(wealth := 0, inventory := seq(NUM_GOODS, _ => 0));
        WealthChange(agents, i, estate);
        OneLoses(agents, i, estate);
        CommitAgents(agents[i := estate]);
      }
    }

    /** The hourly market of a settlement that has one. */
    method ResolveMarket(s: nat, season: seq<real>, regional: real, order: seq<Good>) returns (ghost h: Hour)
      requires Valid() && s < |setts| && setts[s].market.Some?
      requires |season| == NUM_GOODS && VisitsAll(order)
      modifies `agents, `setts
      ensures Valid() && Crowns() == old(Crowns()) && SameHomes(old(agents), agents)
      ensures DeadGainNothing(old(agents), agents)
      ensures s < |members|
      ensures h == Hour(old(agents), members[s], old(setts[s].market.value), old(setts[s].population), season, regional)
      ensures h.Valid() && s < |setts| && setts[s].market.Some? && HourCleared(h, order, agents, setts[s].market.value)
      ensures setts == old(setts)[s := old(setts[s]).(market := setts[s].market)]
      ensures AllConserved(old(agents), agents) && Cleared(old(agents), members[s], agents, order)
    {
      hide Valid, Total, HourCleared, MarketInBand, ValidMembers, VisitsAll;
      MemberList(s);
      var t := setts[s];
      var hour := Hour(agents, members[s], t.market.value, t.population, season, regional);
      h := hour;
      var out, prices := ResolveSettlementMarket(hour, order);
      ClearedFrame(agents, members[s], out, order);
      hide Cleared, SameButHoldings;
      CommitSett(out, s, t.(market := Some(prices)));
    }

    // ----- Merchants ------------------------------------------------------------------

    /** A merchant back from the road: sells at its destination if that still has a market, repays what
        it can of its debt to its own settlement s, and is free again. */
    method Arrive(s: nat, i: nat) returns (ghost sold: seq<Agent>, ghost till: nat, ghost repay: nat)
      requires Valid() && s < |setts| && i < |agents| && agents[i].dest.Some?
      modifies `agents, `setts, `fronted, `repaid
      ensures Valid() && Crowns() == old(Crowns()) && Fronted() == old(Fronted()) && SameHomes(old(agents), agents)
      ensures old(agents[i]).alive ==> DeadGainNothing(old(agents), agents)
      ensures |sold| == |old(agents)| && |members| == |old(setts)|
      ensures var a := old(agents[i]);
              var d := a.dest.value;
              && (if d < |old(setts)| && old(setts)[d].market.Some?
                  then SoldAt(old(agents), members[d], i, old(setts)[d].treasury, a.cargo, old(setts)[d].market.value, sold, till)
                  else sold == old(agents))
              && repay == Min(a.debt, sold[i].wealth)
              && agents == sold[i := sold[i].(wealth := sold[i].wealth - repay, debt := a.debt - repay,
                                              dest := None, cargo := EMPTY)]
              && setts == Deposit(if d < |old(setts)| && old(setts)[d].market.Some?
                                  then old(setts)[d := old(setts)[d].(treasury := till)] else old(setts), s, repay)
    {
      hide Valid, Total, SoldAt, MarketInBand, ValidMembers, Load, SameButHoldings, DeadGainNothing;
      var a := agents[i];
      var d := a.dest.value;
      sold, till := agents, 0;
      NoneGain(agents);
      Coherent();
      if d < |setts| && setts[d].market.Some? {
        MemberList(d);
        var out, treasury := SellMerchantCargo(agents, members[d], i, setts[d].treasury, a.cargo, setts[d].market.value);
        sold, till := out, treasury;
        HoldingsFrame(agents, agents, out);
        Commit(out, d, treasury);
      }
      var b := agents[i];
      var owed := Min(a.debt, b.wealth);
      repay := owed;
      var home := b.(wealth := b.wealth - owed, debt := b.debt - owed, dest := None, cargo := EMPTY);
      EmptyLoad(NUM_GOODS);
      if a.alive {
        OneLoses(agents, i, home);
        DeadGainNothingTwice(old(agents), agents, agents[i := home]);
      }
      CommitMerchant(i, home, s, setts[s].treasury + owed, 0, owed);
    }

    lemma Coherent()
      requires Valid()
      ensures |members| == |setts| && |fronted| == |repaid| == |agents|
      ensures forall k :: 0 <= k < |agents| ==> agents[k].coherence >= 0.0
    {
      assert forall k :: 0 <= k < |agents| ==> AgentOk(agents[k], fronted[k], repaid[k]);
    }

    lemma SettRecord(s: nat)
      requires Valid() && s < |setts|
      ensures SettOk(setts[s])
      ensures forall crowns :: SettOk(setts[s].(treasury := crowns))
      ensures forall people :: SettOk(setts[s].(population := people))
    {
      assert SettOk(setts[s]);
    }

    /** Stores merchant i and the treasury of s. Its debt must follow what is lent and repaid, and it
        must have a destination exactly when it has cargo. */
    method CommitMerchant(i: nat, b: Agent, s: nat, treasury: nat, ghost lent: nat, ghost paid: nat)
      requires Valid() && i < |agents| && s < |setts| && b.coherence == agents[i].coherence
      requires b.debt + paid == agents[i].debt + lent
      requires (b.dest.Some? <==> Load(b.cargo) > 0) && Load(b.cargo) <= CARGO_UNITS
      modifies `agents, `setts, `fronted, `repaid
      ensures Valid() && agents == old(agents)[i := b]
      ensures setts == old(setts)[s := old(setts[s]).(treasury := treasury)]
      ensures Crowns() + old(agents[i].wealth + setts[s].treasury) == old(Crowns()) + b.wealth + treasury
      ensures Fronted() == old(Fronted()) + lent
      ensures |old(fronted)| == |old(repaid)| == |old(agents)|
      ensures fronted == old(fronted)[i := old(fronted)[i] + lent] && repaid == old(repaid)[i := old(repaid)[i] + paid]
    {
      hide SettsOk, Total, MarketInBand, Load, ValidMembers;
      assert AgentOk(agents[i], fronted[i], repaid[i]);
      TotalUpdate(agents, i, b, WealthOf);
      TotalUpdate<nat>(fronted, i, fronted[i] + lent, Same);
      SettRecord(s);
      SettKeepsValid(setts, s, setts[s].(treasury := treasury));
      SameMembers(agents, agents[i := b], members, |setts|);
      setts := setts[s := setts[s].(treasury := treasury)];
      agents, fronted, repaid := agents[i := b], fronted[i := fronted[i] + lent], repaid[i := repaid[i] + paid];
    }

    /** A free merchant takes up an opportunity: cargo partly on credit, then food for the road. What is
        fronted is owed, and is exactly what the crowns in circulation fall by. */
    method Depart(s: nat, i: nat, trip: Trip)
      returns (ghost lent: nat, ghost own: nat, ghost units: nat, ghost till: nat, ghost purse: nat)
      requires Valid() && s < |setts| && i < |agents| && setts[s].market.Some? && agents[i].dest.None?
      modifies `agents, `setts, `fronted, `repaid
      ensures Valid() && SameHomes(old(agents), agents)
      ensures DeadGainNothing(old(agents), agents)
      ensures Crowns() + lent == old(Crowns()) && Fronted() == old(Fronted()) + lent
      ensures |agents| == |old(agents)|
      ensures var a, m := old(agents[i]), old(setts[s].market.value);
              var price := Rounded(m[trip.good].price, 1);
              && Loaded(a.wealth, old(setts[s].treasury), price, purse, till, own, units)
              && lent == units * price
              && (lent == 0 <==> a.wealth >= CARGO_UNITS * price || (a.wealth < price && old(setts[s].treasury) < price))
              && (own + units == 0 <==> a.wealth < price && old(setts[s].treasury) < price)
              && (if own + units == 0 then agents == old(agents) && setts == old(setts)
                  else && agents == old(agents)[i := a.(wealth := agents[i].wealth, inventory := agents[i].inventory,
                                                        dest := Some(trip.dest), travel := trip.travel,
                                                        cargo := EMPTY[trip.good := own + units], debt := a.debt + lent)]
                       && Provisioned(purse, a.inventory, trip.travel / TICKS_PER_HOUR + 2, Rounded(m[GRAIN].price, 1),
                                      Rounded(m[FISH].price, 1), agents[i].wealth, agents[i].inventory)
                       && purse >= agents[i].wealth
                       && setts == old(setts)[s := old(setts[s]).(treasury := till + purse - agents[i].wealth)])
    {
      hide Valid, Total, MarketInBand, Load, Provisioned, Loaded, Rounded, DeadGainNothing;
      NoneGain(agents);
      Free(i);
      var a, m := agents[i], setts[s].market.value;
      var price := Rounded(m[trip.good].price, 1);
      var w, t, paid, credit := BuyCargo(a.wealth, setts[s].treasury, price);
      LoadedSum(a.wealth, setts[s].treasury, price, w, t, paid, credit);
      own, units, till, purse, lent := paid, credit, t, w, credit * price;
      if paid + credit == 0 { return; }
      var w', t', inv := Provision(w, t, a.inventory, trip.travel / TICKS_PER_HOUR + 2,
                                   Rounded(m[GRAIN].price, 1), Rounded(m[FISH].price, 1));
      LoadOne(a.cargo, trip.good, paid + credit);
      var b := a.(wealth := w', inventory := inv, dest := Some(trip.dest), travel := trip.travel,
                  cargo := a.cargo[trip.good := a.cargo[trip.good] + paid + credit], debt := a.debt + credit * price);
      OneLoses(agents, i, b);
      CommitMerchant(i, b, s, t', lent, 0);
    }

    /** A merchant without a destination carries nothing. */
    lemma Free(i: nat)
      requires Valid() && i < |agents| && agents[i].dest.None?
      ensures agents[i].cargo == EMPTY && Load(agents[i].cargo) == 0
    {
      assert AgentOk(agents[i], fronted[i], repaid[i]);
      forall g: Good ensures agents[i].cargo[g] == 0 { LoadOne(agents[i].cargo, g, 0); }
    }

    /** One merchant's hour in settlement s: travel on, or sell and come home, or set out. Crowns in
        circulation fall by exactly what the hour fronted. */
    method MerchantHour(s: nat, i: nat, trip: Option<Trip>) returns (ghost lent: nat)
      requires Valid() && s < |setts| && i < |agents| && setts[s].market.Some?
      modifies `agents, `setts, `fronted, `repaid
      ensures Valid() && SameHomes(old(agents), agents)
      ensures DeadGainNothing(old(agents), agents)
      ensures Crowns() + lent == old(Crowns()) && Fronted() == old(Fronted()) + lent
      ensures |agents| == |old(agents)| && |setts| == |old(setts)|
      ensures var a := old(agents[i]);
              if !a.alive || a.occupation != Merchant then agents == old(agents) && setts == old(setts)
              else if a.travel > 0 then
                && agents == old(agents)[i := a.(travel := if a.travel <= TICKS_PER_HOUR then 0 else a.travel - TICKS_PER_HOUR)]
                && setts == old(setts)
              else if a.dest.Some? then
                && lent == 0 && agents[i].dest.None? && agents[i].cargo == EMPTY
                && agents[i].debt <= a.debt && (agents[i].debt == 0 || agents[i].wealth == 0)
              else if a.wealth < 20 || trip.None? then agents == old(agents) && setts == old(setts)
              else var price := Rounded(old(setts[s].market.value)[trip.value.good].price, 1);
                if a.wealth < price && old(setts[s].treasury) < price then agents == old(agents) && setts == old(setts)
                else
                && (lent == 0 <==> a.wealth >= CARGO_UNITS * price)
                && agents[i].dest == Some(trip.value.dest) && agents[i].travel == trip.value.travel
                && agents[i].cargo == EMPTY[trip.value.good := agents[i].cargo[trip.value.good]]
                && agents[i].debt == a.debt + lent
    {
      hide Valid, Total, SoldAt, MarketInBand, Load, Provisioned, Loaded, Rounded;
      lent := 0;
      var a := agents[i];
      if !a.alive || a.occupation != Merchant { return; }
      if a.travel > 0 {
        var ticks := if a.travel <= TICKS_PER_HOUR then 0 else a.travel - TICKS_PER_HOUR;
        InOrder(i);
        CommitMerchant(i, a.(travel := ticks), s, setts[s].treasury, 0, 0);
        return;
      }
      if a.dest.Some? {
        ghost var sold, till, repay := Arrive(s, i);
        return;
      }
      if a.wealth < 20 || trip.None? { return; }
      ghost var own, units, till, purse;
      lent, own, units, till, purse := Depart(s, i, trip.value);
    }

    lemma InOrder(i: nat)
      requires Valid() && i < |agents|
      ensures (agents[i].dest.Some? <==> Load(agents[i].cargo) > 0) && Load(agents[i].cargo) <= CARGO_UNITS
    {
      assert AgentOk(agents[i], fronted[i], repaid[i]);
    }

    // ----- Founding and abandonment ---------------------------------------------------

    /** A diaspora from settlement s: the emigrants found a settlement whose treasury is a third of what
        they own between them. */
    method PoolDiaspora(s: nat, emigrants: seq<nat>) returns (ghost pooled: nat)
      requires Valid() && s < |setts| && ValidMembers(agents, emigrants) && |emigrants| <= setts[s].population
      modifies `agents, `setts, `members
      ensures Valid() && Crowns() == old(Crowns())
      ensures |agents| == |old(agents)| && |old(members)| == |old(setts)|
      ensures forall i :: 0 <= i < |agents| ==>
                agents[i] == if i in emigrants then Emigrated(old(agents)[i], |old(setts)|) else old(agents)[i]
      ensures pooled + Total(agents, WealthOf) == old(Total(agents, WealthOf))
      ensures exists m: Market :: setts == old(setts)[s := old(setts[s]).(population := old(setts[s].population) - |emigrants|)]
                                           + [Settlement(pooled, 0.1, |emigrants|, Some(m))]
      ensures members == old(members)[s := Keep(old(members)[s], emigrants)] + [emigrants]
    {
      hide AgentsOk, MembersOk, Total, MarketInBand, ValidMembers, SettsOk, Emigrated, Keep;
      MemberList(s);
      Coherent();
      var out, pool := PoolWealth(agents, emigrants, |setts|);
      pooled := pool;
      EmigrantsOk(agents, out, fronted, repaid, emigrants, |setts|);
      ColonyMembers(agents, out, members, |setts|, s, emigrants);
      var rest := Without(members[s], emigrants);
      var market := NewMarket();
      var parent := setts[s].(population := setts[s].population - |emigrants|);
      var colony := Settlement(pool, 0.1, |emigrants|, Some(market));
      SettRecord(s);
      SettKeepsValid(setts, s, parent);
      SettsAppend(setts[s := parent], colony);
      TotalAppend(setts[s := parent], colony, TreasuryOf);
      agents, members := out, members[s := rest] + [emigrants];
      setts := setts[s := parent] + [colony];
    }

    /** The treasury of settlement s is shared out and zeroed. What s itself is given is lost. */
    method HandOver(s: nat, near: seq<nat>)
      requires Valid() && s < |setts| && AreHeirs(setts, near)
      modifies `setts
      ensures Valid() && Crowns() + ShareOf(old(setts[s].treasury), near, s) == old(Crowns())
      ensures |setts| == |old(setts)| && setts[s] == old(setts[s]).(treasury := 0)
      ensures forall t :: 0 <= t < |setts| && t != s ==>
                setts[t] == Grant(old(setts)[t], ShareOf(old(setts[s].treasury), near, t))
    {
      hide AgentsOk, MembersOk, Total, MarketInBand, ShareOf;
      var out := ShareOut(setts, s, near);
      assert forall t :: 0 <= t < |setts| ==> SettOk(setts[t]);
      setts := out;
    }

    // ----- Coming and going --------------------------------------------------------------

    /** A death: the agent is marked dead and its estate passes on. */
    method Die(i: nat) returns (ghost heir: Option<nat>)
      requires Valid() && i < |agents|
      modifies `agents, `setts
      ensures Valid() && SameHomes(old(agents), agents)
      ensures agents[i] == old(agents[i]).(alive := false, wealth := 0, inventory := agents[i].inventory)
      ensures |setts| == |old(setts)| && (old(AllHoused()) ==> AllHoused())
      ensures DeadGainNothing(old(agents)[i := old(agents[i]).(alive := false)], agents)
      ensures Crowns() + (if Housed(old(agents[i]), |old(setts)|) then 0 else old(agents[i].wealth)) == old(Crowns())
      ensures Broke(old(agents)) ==> Broke(agents)
    {
      hide Total, MarketInBand, AgentOk, Restocked, Load;
      var a := agents[i].(alive := false);
      TotalUpdate(agents, i, a, WealthOf);
      DeathOk(agents, fronted, repaid, i);
      agents := agents[i := a];
      hide Valid;
      heir := InheritWealth(i);
      assert agents[i] == a.(wealth := 0, inventory := agents[i].inventory);
    }

    /** A birth or an arrival. */
    method Join(a: Agent, s: nat)
      requires Valid() && s < |setts| && Newcomer(a, s)
      modifies `agents, `setts, `members, `fronted, `repaid
      ensures Valid() && Crowns() == old(Crowns()) + a.wealth && Fronted() == old(Fronted())
      ensures agents == old(agents) + [a] && |setts| == |old(setts)|
      ensures (old(AllHoused()) ==> AllHoused()) && (Broke(old(agents)) ==> Broke(agents))
      ensures setts == old(setts)[s := old(setts[s]).(population := old(setts[s].population) + 1)]
      ensures |old(members)| == |setts| && members == old(members)[s := old(members)[s] + [|old(agents)|]]
    {
      hide Total, MarketInBand, Load;
      EmptyLoad(NUM_GOODS);
      assert a.cargo == EMPTY;
      TotalAppend(agents, a, WealthOf);
      TotalAppend(fronted, 0, Same);
      var t := setts[s].(population := setts[s].population + 1);
      TotalUpdate(setts, s, t, TreasuryOf);
      SettRecord(s);
      hide SettOk, AgentOk;
      members := members[s := members[s] + [|agents|]];
      agents, fronted, repaid := agents + [a], fronted + [0], repaid + [0];
      setts := setts[s := t];
    }

    /** Everything else a week brings: it may change homes, lists, occupations, needs, goods, tax rates and counters,
        but no purse, treasury, debt or cargo. */
    method Live(out: seq<Agent>, reformed: seq<Settlement>, lists: seq<seq<nat>>)
      requires Valid() && Reshaped(agents, out, |setts|) && Reformed(setts, reformed)
      requires |lists| == |setts| && AllLists(out, lists)
      modifies `agents, `setts, `members
      ensures Valid() && Crowns() == old(Crowns()) && agents == out && setts == reformed && members == lists
      ensures DeadGainNothing(old(agents), agents) && (old(AllHoused()) ==> AllHoused())
    {
      hide Total, SettOk, AgentOk, SamePurse, ValidMembers;
      ReshapedOk(agents, out, |setts|, fronted, repaid);
      ReformedOk(setts, reformed);
      agents, setts, members := out, reformed, lists;
    }

    /** The weekly compaction: the dead go, and lists and counters are rebuilt from the living. What the dead held is
        lost, so nothing is lost if and only if they held nothing. */
    method CompactDead()
      requires Valid()
      modifies `agents, `setts, `members, `fronted, `repaid, `buried
      ensures Valid() && Crowns() + Total(old(agents), DeadPurse) == old(Crowns()) && Fronted() == old(Fronted())
      ensures Crowns() == old(Crowns()) <==> Broke(old(agents))
      ensures Broke(agents) || agents == old(agents)
      ensures (old(AllHoused()) ==> AllHoused()) && |setts| == |old(setts)|
      ensures if forall i :: 0 <= i < |old(agents)| ==> old(agents)[i].alive
              then agents == old(agents) && setts == old(setts) && members == old(members)
              else && agents == LivingTo(old(agents), |old(agents)|)
                   && |members| == |setts| && AreRolls(agents, |agents|, true, members)
                   && forall s :: 0 <= s < |setts| ==> setts[s] == old(setts)[s].(population := |members[s]|)
    {
      hide Total, MarketInBand, AgentOk, AreRolls, DeadPurse, LivingTo, NotesTo, BuriedTo, ValidMembers;
      var alive := KeepLiving(agents);
      LivingOk(agents, fronted, repaid, |setts|);
      CompactSums(agents, fronted);
      if |alive| == |agents| {
        AllAlive(agents);
        return;
      }
      var rolls := RollCall(alive, |setts|, true);
      var counted := Recounted(setts, rolls);
      RecountedOk(setts, counted);
      buried := buried + BuriedTo(agents, fronted, |agents|);
      fronted, repaid := NotesTo(agents, fronted, |agents|), NotesTo(agents, repaid, |agents|);
      agents, setts, members := alive, counted, rolls;
    }

    // ----- Runs --------------------------------------------------------------------------

    /** Every agent's home is a registered settlement. */
    ghost predicate AllHoused()
      reads this
    {
      HousedAll(agents, |setts|)
    }

    /** What an operation that conserves crowns leaves behind. */
    twostate predicate Closed()
      reads this
    {
      && Valid() && Crowns() + Fronted() == old(Crowns() + Fronted())
      && (old(AllHoused()) ==> AllHoused()) && (Broke(old(agents)) ==> Broke(agents))
    }

    /** Public finance. A pass whose inputs do not fit does not happen. */
    method FiscalStep(op: Op)
      requires Valid() && (op.Tax? || op.Wage? || op.Garrison? || op.Dues? || op.Patronage? || op.Raid?)
      modifies this
      ensures Closed()
    {
      hide Valid, Total, WorksDone, WagesPaid, StipendsPaid, PaidOut, Taxed, SameHomes, DeadGainNothing, HousedAll, Broke;
      NoneGain(agents);
      NobodyMoves(agents);
      Coherent();
      match op {
        case Tax(s) =>
          if s < |setts| { ghost var taxed, paid := CollectTaxes(s); }
        case Wage(s, t, a) =>
          if s < |setts| { ghost var paid := PaySettlementWages(s, t, a); }
        case Garrison(s) =>
          if s < |setts| { ghost var paid := PayGarrisonStipends(s); }
        case Dues(i) =>
          if i < |agents| { CollectFactionDues(i); }
        case Patronage(f, ws) =>
          if f < |factions| && |ws| == |agents| { ghost var who, w, paid := DistributeFactionPatronage(f, ws); }
        case Raid(w, l) =>
          if w < |setts| && l < |setts| && w != l { Plunder(w, l); }
      }
      WorldKept(old(agents), agents, |setts|);
    }

    /** Markets, meals and merchants. */
    method TradeStep(op: Op)
      requires Valid() && (op.Food? || op.Trade? || op.Merchanting?)
      modifies this
      ensures Closed()
    {
      hide Valid, Total, HourCleared, Cleared, AllConserved, SameHomes, DeadGainNothing, HousedAll, Broke;
      NoneGain(agents);
      NobodyMoves(agents);
      match op {
        case Food(i) =>
          if i < |agents| { ResolveBuyFood(i); }
        case Trade(s, season, regional, order) =>
          if s < |setts| && setts[s].market.Some? && |season| == NUM_GOODS && VisitsAll(order) {
            ghost var h := ResolveMarket(s, season, regional, order);
          }
        case Merchanting(s, i, trip) =>
          if s < |setts| && i < |agents| && setts[s].market.Some? { ghost var lent := MerchantHour(s, i, trip); }
      }
      WorldKept(old(agents), agents, |setts|);
    }

    /** Foundings, and everything the rest of the week brings. */
    method SettleStep(op: Op)
      requires Valid() && (op.Founding? || op.Living?)
      modifies this
      ensures Closed()
    {
      hide Valid, Total, Keep, MarketInBand, Distinct;
      match op
      case Founding(s, who) =>
        if s < |setts| && ValidMembers(agents, who) && |who| <= setts[s].population {
          ghost var pooled := PoolDiaspora(s, who);
        }
      case Living(out, reformed, lists) =>
        if Reshaped(agents, out, |setts|) && Reformed(setts, reformed) && |lists| == |setts| && AllLists(out, lists) {
          Live(out, reformed, lists);
        }
    }

    /** What an operation that may lose crowns leaves behind. */
    twostate predicate Lossy(lost: nat)
      reads this
    {
      && Valid() && Crowns() + Fronted() + lost == old(Crowns() + Fronted())
      && (old(AllHoused()) ==> AllHoused()) && (Broke(old(agents)) ==> Broke(agents))
    }

    method DecayStep(i: nat, log2: real -> real) returns (ghost lost: nat)
      requires Valid() && i < |agents| && Crowns() < UINT64 && IsLog2(log2)
      modifies this
      ensures Lossy(lost) && (lost > 0 <==> Decays(old(agents[i])) && !Housed(old(agents[i]), |old(setts)|))
    {
      hide Valid, Total, DecayDue, DecayRate, SameHomes, DeadGainNothing, HousedAll, Broke;
      ghost var due := DecayWealth(i, log2);
      WorldKept(old(agents), agents, |setts|);
      lost := if Housed(old(agents[i]), |old(setts)|) then 0 else due;
    }

    method DeathStep(i: nat) returns (ghost lost: nat)
      requires Valid() && i < |agents|
      modifies this
      ensures Lossy(lost) && (lost > 0 <==> old(agents[i].wealth) > 0 && !Housed(old(agents[i]), |old(setts)|))
    {
      hide Valid, Total, SameHomes, DeadGainNothing, HousedAll, Broke;
      lost := if Housed(agents[i], |setts|) then 0 else agents[i].wealth;
      ghost var heir := Die(i);
    }

    method AbandonStep(s: nat, near: seq<nat>) returns (ghost lost: nat)
      requires Valid() && s < |setts| && AreHeirs(setts, near)
      modifies this
      ensures Lossy(lost) && lost == ShareOf(old(setts[s].treasury), near, s)
    {
      hide Valid, Total, ShareOf, HousedAll, Broke, Grant;
      lost := ShareOf(setts[s].treasury, near, s);
      HandOver(s, near);
    }

    method CompactStep() returns (ghost lost: nat)
      requires Valid()
      modifies this
      ensures Lossy(lost) && (lost > 0 <==> !Broke(old(agents)))
    {
      hide Valid, Total, HousedAll, Broke, AreRolls, LivingTo, DeadPurse;
      lost := Total(agents, DeadPurse);
      CompactDead();
    }

    /** Crowns are lost in four cases only: decay and death without a registered home, a settlement that is among its
        own heirs, and the compaction of a dead agent that still holds some. They are minted only by newcomers. */
    method Step(op: Op, log2: real -> real) returns (ghost lost: nat, ghost minted: nat)
      requires Valid() && Crowns() < UINT64 && IsLog2(log2)
      modifies this
      ensures Valid() && Crowns() + Fronted() + lost == old(Crowns() + Fronted()) + minted
      ensures lost > 0 <==> Leaks(op, old(agents), old(setts))
      ensures minted == if op.Joining? && op.s < |old(setts)| && Newcomer(op.a, op.s) then op.a.wealth else 0
      ensures (old(AllHoused()) ==> AllHoused()) && (Broke(old(agents)) ==> Broke(agents))
    {
      hide Valid, Crowns, Fronted, AllHoused, ShareOf, Distinct, Broke, Newcomer, Decays, Housed;
      lost, minted := 0, 0;
      match op
      case Decay(i) => if i < |agents| { lost := DecayStep(i, log2); }
      case Death(i) => if i < |agents| { lost := DeathStep(i); }
      case Abandoning(s, near) => if s < |setts| && AreHeirs(setts, near) { lost := AbandonStep(s, near); }
      case Compacting => lost := CompactStep();
      case Joining(a, s) =>
        if s < |setts| && Newcomer(a, s) {
          minted := a.wealth;
          Join(a, s);
        }
      case Founding(_, _) => SettleStep(op);
      case Living(_, _, _) => SettleStep(op);
      case Food(_) => TradeStep(op);
      case Trade(_, _, _, _) => TradeStep(op);
      case Merchanting(_, _, _) => TradeStep(op);
      case _ => FiscalStep(op);
    }

    /** The closed economy: whatever the order of operations, and whoever is born, moves, dies and is compacted away,
        crowns in circulation plus crowns ever fronted on consignment change by exactly what newcomers bring less the
        losses that Step locates. If homes are registered, no settlement is its own heir and the dead hold nothing at
        first, then they never do and there are no losses. Nobody's purse and no treasury leaves the range of a
        uint64; each merchant owes what was fronted to it less what it repaid; and all prices stay in their bands. */
    method Run(ops: seq<Op>, log2: real -> real) returns (ghost lost: nat, ghost minted: nat)
      requires Valid() && Crowns() + Fronted() + MintedBy(ops, |ops|) < UINT64 && IsLog2(log2)
      modifies this
      ensures Valid()
      ensures Crowns() + Fronted() + lost == old(Crowns() + Fronted()) + minted && minted <= MintedBy(ops, |ops|)
      ensures Broke(old(agents)) ==> Broke(agents)
      ensures old(AllHoused()) && HeirsAreOthers(ops) && Broke(old(agents)) ==> lost == 0 && AllHoused()
      ensures forall i :: 0 <= i < |agents| ==> agents[i].wealth < UINT64
      ensures forall s :: 0 <= s < |setts| ==> setts[s].treasury < UINT64
      ensures forall f :: 0 <= f < |factions| ==> factions[f].treasury < UINT64
      ensures forall i :: 0 <= i < |agents| ==>
                && |fronted| == |repaid| == |agents| && agents[i].debt + repaid[i] == fronted[i]
                && (agents[i].dest.Some? <==> Load(agents[i].cargo) > 0) && Load(agents[i].cargo) <= CARGO_UNITS
      ensures forall s, g: Good :: 0 <= s < |setts| && setts[s].market.Some? ==> InBand(setts[s].market.value[g])
    {
      hide Valid, Total, Load, InBand, ShareOf, Leaks, Newcomer;
      lost, minted := 0, 0;
      for k := 0 to |ops|
        invariant Valid() && Crowns() + Fronted() + lost == old(Crowns() + Fronted()) + minted
        invariant minted <= MintedBy(ops, k)
        invariant Broke(old(agents)) ==> Broke(agents)
        invariant old(AllHoused()) && HeirsAreOthers(ops) && Broke(old(agents)) ==> lost == 0 && AllHoused()
      {
        MintedGrows(ops, k, |ops|);
        if old(AllHoused()) && HeirsAreOthers(ops) && Broke(old(agents)) {
          NoLeak(ops[k], agents, setts);
        }
        ghost var gone, made := Step(ops[k], log2);
        lost, minted := lost + gone, minted + made;
      }
      EndOfRun(Crowns());
    }

    lemma EndOfRun(total: nat)
      requires Valid() && Crowns() <= total
      ensures |fronted| == |repaid| == |agents|
      ensures forall i :: 0 <= i < |agents| ==>
                && agents[i].wealth <= total && agents[i].debt + repaid[i] == fronted[i]
                && (agents[i].dest.Some? <==> Load(agents[i].cargo) > 0) && Load(agents[i].cargo) <= CARGO_UNITS
      ensures forall s :: 0 <= s < |setts| ==> setts[s].treasury <= total
      ensures forall f :: 0 <= f < |factions| ==> factions[f].treasury <= total
      ensures forall s, g: Good :: 0 <= s < |setts| && setts[s].market.Some? ==> InBand(setts[s].market.value[g])
    {
      hide Load, InBand;
      forall i | 0 <= i < |agents|
        ensures agents[i].wealth <= total && AgentOk(agents[i], fronted[i], repaid[i])
      {
        SumToBounds(agents, |agents|, i, WealthOf);
      }
      forall s | 0 <= s < |setts| ensures setts[s].treasury <= total && SettOk(setts[s]) {
        SumToBounds(setts, |setts|, s, TreasuryOf);
      }
      forall f | 0 <= f < |factions| ensures factions[f].treasury <= total {
        SumToBounds(factions, |factions|, f, FundsOf);
      }
    }
  }

  /** A world of one homeless agent with 1000 crowns: a day's decay loses some of them, and a death the rest. */
  method HomelessLoses(log2: real -> real) returns (sim: Simulation, ghost decayed: nat, ghost estate: nat)
    requires IsLog2(log2)
    ensures fresh(sim) && sim.Valid() && sim.Crowns() == 0
    ensures decayed > 0 && estate > 0 && decayed + estate == 1000
  {
    EmptyLoad(NUM_GOODS);
    sim := new Simulation([HOMELESS], [], []);
    assert Total([HOMELESS], WealthOf) == 1000 by { assert SumTo([HOMELESS], 1, WealthOf) == 1000; }
    assert sim.Crowns() == 1000;
    hide Total, DecayRate, DecayDue, Simulation.Valid, IsHeir, Restocked;
    decayed := sim.DecayWealth(0, log2);
    estate := sim.agents[0].wealth;
    ghost var heir := sim.InheritWealth(0);
  }
}
