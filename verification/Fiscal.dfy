/** The loops that move crowns between a settlement's treasury and its people:
    taxes, public works, wages and garrison stipends of internal/engine/market.go. */
module Fiscal {
  import opened Accounts
  import opened Phi
  import opened Payout
  import opened Matching

  const TAX_THRESHOLD: nat := 20

  function AtLeastOne(x: nat): nat { if x < 1 then 1 else x }

  function Debit(a: Agent, crowns: nat): Agent
    requires crowns <= a.wealth
  {
    a.(wealth := a.wealth - crowns)
  }

  /** Only wealth differs. */
  ghost predicate SameButWealth(agents: seq<Agent>, out: seq<Agent>) {
    |out| == |agents| && forall i :: 0 <= i < |out| ==> out[i] == agents[i].(wealth := out[i].wealth)
  }

  /** What the daily tax takes from a living agent. */
  function TaxDue(wealth: nat, rate: real): (tax: nat)
    requires rate >= 0.0
    ensures tax <= wealth
    ensures tax == 0 <==> wealth <= TAX_THRESHOLD
  {
    if wealth <= TAX_THRESHOLD then 0
    else Min(wealth, AtLeastOne(Trunc((wealth - TAX_THRESHOLD) as real * rate * AGNOSIS)))
  }

  /** Each living member pays its tax once. */
  ghost function Taxed(agents: seq<Agent>, members: seq<nat>, rate: real): seq<Agent>
    requires rate >= 0.0
  {
    seq(|agents|, i requires 0 <= i < |agents| =>
      if i in members && agents[i].alive then Debit(agents[i], TaxDue(agents[i].wealth, rate)) else agents[i])
  }

  method LevyTaxes(agents: seq<Agent>, members: seq<nat>, rate: real) returns (out: seq<Agent>, revenue: nat)
    requires ValidMembers(agents, members) && rate >= 0.0
    ensures out == Taxed(agents, members, rate)
    ensures Total(out, WealthOf) + revenue == Total(agents, WealthOf)
  {
    hide TaxDue, Total;
    out, revenue := agents, 0;
    for k := 0 to |members|
      invariant |out| == |agents|
      invariant forall i :: 0 <= i < |out| ==>
        out[i] == if i in members[..k] && agents[i].alive then Debit(agents[i], TaxDue(agents[i].wealth, rate))
                  else agents[i]
      invariant Total(out, WealthOf) + revenue == Total(agents, WealthOf)
    {
      var i := members[k];
      assert members[..k + 1] == members[..k] + [i];
      assert i !in members[..k];
      if out[i].alive {
        var tax := TaxDue(out[i].wealth, rate);
        TotalUpdate(out, i, Debit(out[i], tax), WealthOf);
        out := out[i := Debit(out[i], tax)];
        revenue := revenue + tax;
      }
    }
    assert members[..|members|] == members;
  }

  function LivingWealth(agents: seq<Agent>): nat -> nat {
    (i: nat) => if i < |agents| && agents[i].alive then agents[i].wealth else 0
  }

  function Living(agents: seq<Agent>): nat -> nat {
    (i: nat) => if i < |agents| && agents[i].alive then 1 else 0
  }

  function MeanWealth(agents: seq<Agent>, members: seq<nat>): real {
    var n := Total(members, Living(agents));
    if n == 0 then 0.0 else Total(members, LivingWealth(agents)) as real / n as real
  }

  /** The wealth below which an agent is poor: Agnosis of the mean, but at least `least`. */
  function PovertyLine(agents: seq<Agent>, members: seq<nat>, least: real): real {
    var line := MeanWealth(agents, members) * AGNOSIS;
    if line < least then least else line
  }

  method FindPovertyLine(agents: seq<Agent>, members: seq<nat>, least: real) returns (line: real)
    requires ValidMembers(agents, members)
    ensures line == PovertyLine(agents, members, least)
  {
    var sum, n := 0, 0;
    for k := 0 to |members|
      invariant sum == SumTo(members, k, LivingWealth(agents)) && n == SumTo(members, k, Living(agents))
    {
      if agents[members[k]].alive {
        sum, n := sum + agents[members[k]].wealth, n + 1;
      }
    }
    var mean := if n > 0 then sum as real / n as real else 0.0;
    line := if mean * AGNOSIS < least then least else mean * AGNOSIS;
  }

  predicate Poor(a: Agent, line: real)
    requires line > 0.0
  {
    a.alive && a.wealth < Trunc(line)
  }

  /** How far below the line, as a fraction of it. */
  function Need(a: Agent, line: real): real
    requires line > 0.0
  {
    (line - a.wealth as real) / line
  }

  lemma NeedPositive(a: Agent, line: real)
    requires line > 0.0 && Poor(a, line)
    ensures Need(a, line) > 0.0
  {
    assert Need(a, line) * line == line - a.wealth as real;
  }

  lemma NonNegativeFactor(x: real, d: real)
    requires d > 0.0 && x * d >= 0.0
    ensures x >= 0.0
  {
  }

  lemma NeedierShare(poorer: Agent, richer: Agent, line: real, budget: nat, total: real)
    requires line > 0.0 && total > 0.0
    requires Poor(poorer, line) && Poor(richer, line) && poorer.wealth <= richer.wealth
    ensures Need(richer, line) > 0.0 && Need(poorer, line) > 0.0
    ensures Share(budget, Need(richer, line), total) <= Share(budget, Need(poorer, line), total)
  {
    NeedPositive(poorer, line);
    NeedPositive(richer, line);
    var p, r := Need(poorer, line), Need(richer, line);
    assert (p - r) * line == p * line - r * line == (richer.wealth - poorer.wealth) as real;
    NonNegativeFactor(p - r, line);
    ShareMonotone(budget, Need(richer, line), Need(poorer, line), total);
  }

  /** `who` lists exactly the poor members, once each, and `ws` their needs. */
  ghost predicate AreNeedy(agents: seq<Agent>, members: seq<nat>, line: real, who: seq<nat>, ws: seq<real>)
    requires line > 0.0
  {
    && |who| == |ws| && Distinct(who)
    && (forall i :: i in who <==> i in members && i < |agents| && Poor(agents[i], line))
    && (forall k :: 0 <= k < |who| ==> who[k] < |agents| && ws[k] == Need(agents[who[k]], line) && ws[k] > 0.0)
  }

  method Needy(agents: seq<Agent>, members: seq<nat>, line: real) returns (who: seq<nat>, ws: seq<real>)
    requires ValidMembers(agents, members) && line > 0.0
    ensures AreNeedy(agents, members, line, who, ws)
  {
    hide Poor, Need;
    who, ws := [], [];
    for k := 0 to |members|
      invariant AreNeedy(agents, members[..k], line, who, ws)
    {
      var i := members[k];
      assert members[..k + 1] == members[..k] + [i];
      assert i !in members[..k];
      if Poor(agents[i], line) {
        NeedPositive(agents[i], line);
        who, ws := who + [i], ws + [Need(agents[i], line)];
      }
    }
    assert members[..|members|] == members;
  }

  function WorksBudget(population: nat, treasury: nat): nat {
    Min(Trunc(population as real * AGNOSIS * 0.5), treasury)
  }

  /** Public works: every poor member gets its share of the budget, and all but less than a
      crown a head of the budget is spent, as long as there is a budget and somebody is poor. */
  ghost predicate Works(agents: seq<Agent>, members: seq<nat>, budget: nat, out: seq<Agent>, paid: nat,
                        who: seq<nat>, ws: seq<real>) {
    && AreNeedy(agents, members, PovertyLine(agents, members, 30.0), who, ws)
    && (budget == 0 || who == [] ==> out == agents && paid == 0)
    && (budget > 0 && who != [] ==>
          && WeightTo(ws, |ws|) > 0.0
          && PaidOut(agents, out, who, ws, budget, |who|)
          && budget - |who| < paid <= budget)
  }

  ghost predicate WorksDone(agents: seq<Agent>, members: seq<nat>, budget: nat, out: seq<Agent>, paid: nat) {
    exists who, ws :: Works(agents, members, budget, out, paid, who, ws)
  }

  /** Of two members the poorer, if alive, never gains less from public works. */
  lemma PoorerNeverGetsLess(agents: seq<Agent>, members: seq<nat>, budget: nat, out: seq<Agent>, paid: nat, i: nat, j: nat)
    requires WorksDone(agents, members, budget, out, paid)
    requires i in members && j in members && i < |agents| && j < |agents|
    requires agents[i].alive && agents[i].wealth <= agents[j].wealth
    ensures |out| == |agents|
    ensures out[i].wealth - agents[i].wealth >= out[j].wealth - agents[j].wealth >= 0
  {
    hide MeanWealth, Need, Share, WeightTo;
    var line := PovertyLine(agents, members, 30.0);
    var who, ws :| Works(agents, members, budget, out, paid, who, ws);
    assert Works(agents, members, budget, out, paid, who, ws);
    if budget > 0 && j in who {
      var l :| 0 <= l < |who| && who[l] == j;
      var k :| 0 <= k < |who| && who[k] == i;
      NeedierShare(agents[i], agents[j], line, budget, WeightTo(ws, |ws|));
    }
  }

  method PublicWorks(agents: seq<Agent>, members: seq<nat>, population: nat, treasury: nat)
    returns (out: seq<Agent>, paid: nat)
    requires ValidMembers(agents, members)
    ensures WorksDone(agents, members, WorksBudget(population, treasury), out, paid)
    ensures paid <= treasury
    ensures SameButWealth(agents, out) && Total(out, WealthOf) == Total(agents, WealthOf) + paid
  {
    hide Total, PaidOut, Need, Poor, MeanWealth;
    var budget := WorksBudget(population, treasury);
    var line := FindPovertyLine(agents, members, 30.0);
    var who, ws := Needy(agents, members, line);
    out, paid := agents, 0;
    if budget > 0 && who != [] {
      out, paid := PayProportionally(agents, who, ws, budget);
      PaidOutFrame(agents, out, who, ws, budget);
    }
    assert Works(agents, members, budget, out, paid, who, ws);
  }

  lemma PaidOutFrame(agents: seq<Agent>, out: seq<Agent>, who: seq<nat>, ws: seq<real>, budget: nat)
    requires |who| == |ws| && Positive(ws) && WeightTo(ws, |ws|) > 0.0 && PaidOut(agents, out, who, ws, budget, |who|)
    ensures SameButWealth(agents, out)
  {
    forall i | 0 <= i < |out|
      ensures out[i] == agents[i].(wealth := out[i].wealth)
    {
      if i in who {
        var k :| 0 <= k < |who| && who[k] == i;
      }
    }
  }

  // ----- Payments in list order until the money runs out -----------------------

  lemma PaidFirstFrame(agents: seq<Agent>, out: seq<Agent>, who: seq<nat>, amounts: seq<nat>, cut: nat)
    requires PaidFirst(agents, out, who, amounts, cut)
    ensures SameButWealth(agents, out)
  {
    forall i | 0 <= i < |out|
      ensures out[i] == agents[i].(wealth := out[i].wealth)
    {
      if i in who {
        var k :| 0 <= k < |who| && who[k] == i;
      }
    }
  }

  /** The first `cut` payees received their amounts and nobody else anything. */
  ghost predicate PaidFirst(agents: seq<Agent>, out: seq<Agent>, who: seq<nat>, amounts: seq<nat>, cut: nat) {
    && |out| == |agents| && cut <= |who| == |amounts|
    && (forall k :: 0 <= k < |who| ==> who[k] < |agents|)
    && (forall i :: 0 <= i < |out| && i !in who ==> out[i] == agents[i])
    && (forall k :: 0 <= k < |who| ==>
          out[who[k]] == if k < cut then Credit(agents[who[k]], amounts[k]) else agents[who[k]])
  }

  /** Wages and stipends: pay down the list until the next payment would exceed the budget
      or the treasury. */
  method PayInOrder(agents: seq<Agent>, who: seq<nat>, amounts: seq<nat>, budget: nat, treasury: nat)
    returns (out: seq<Agent>, paid: nat, cut: nat)
    requires |who| == |amounts| && Distinct(who) && forall k :: 0 <= k < |who| ==> who[k] < |agents|
    ensures cut <= |who| && PaidFirst(agents, out, who, amounts, cut)
    ensures paid == SumTo(amounts, cut, Same) <= Min(budget, treasury)
    ensures cut < |who| ==> paid + amounts[cut] > Min(budget, treasury)
    ensures Total(out, WealthOf) == Total(agents, WealthOf) + paid
  {
    hide Total;
    out, paid, cut := agents, 0, 0;
    var left: nat := treasury;
    while cut < |who|
      invariant PaidFirst(agents, out, who, amounts, cut)
      invariant paid == SumTo(amounts, cut, Same) <= budget && left + paid == treasury
      invariant Total(out, WealthOf) == Total(agents, WealthOf) + paid
    {
      var amount := amounts[cut];
      if paid + amount > budget { break; }
      if left < amount { break; }
      TotalUpdate(out, who[cut], Credit(out[who[cut]], amount), WealthOf);
      left := left - amount;
      out := out[who[cut] := Credit(out[who[cut]], amount)];
      paid, cut := paid + amount, cut + 1;
    }
  }

  /** The share of treasuries paid out as wages, steered towards 1 - Matter of all wealth. */
  function OutflowRate(totalTreasury: nat, totalAgent: nat): (rate: real)
    requires totalTreasury + totalAgent > 0
    ensures 0.005 <= rate <= AGNOSIS
  {
    var excess := totalTreasury as real / (totalTreasury + totalAgent) as real - (1.0 - MATTER);
    if excess > 0.0 then
      var r := 0.01 + excess * excess * 40.0;
      if r > AGNOSIS then AGNOSIS else r
    else 0.005
  }

  function WageBudget(treasury: nat, rate: real): nat
    requires rate >= 0.0
  {
    var b := Trunc(treasury as real * rate);
    if b < 2 then 2 else b
  }

  /** The wage of each listed agent: its share of the budget, but at least a crown. */
  ghost predicate AreWages(wages: seq<nat>, ws: seq<real>, budget: nat) {
    && |wages| == |ws| && Positive(ws)
    && (ws != [] ==> WeightTo(ws, |ws|) > 0.0)
    && (forall k :: 0 <= k < |ws| ==> wages[k] == AtLeastOne(Share(budget, ws[k], WeightTo(ws, |ws|))))
  }

  method WageList(ws: seq<real>, budget: nat) returns (wages: seq<nat>)
    requires Positive(ws)
    ensures AreWages(wages, ws, budget)
  {
    hide Share;
    WeightMono(ws, 0, |ws|);
    wages := [];
    var total := 0.0;
    for k := 0 to |ws|
      invariant total == WeightTo(ws, k)
    {
      total := total + ws[k];
    }
    for k := 0 to |ws|
      invariant |wages| == k
      invariant forall j :: 0 <= j < k ==> wages[j] == AtLeastOne(Share(budget, ws[j], total))
    {
      wages := wages + [AtLeastOne(Share(budget, ws[k], total))];
    }
  }

  /** Wages go down the list of poor members until the budget or the treasury is spent. */
  ghost predicate Wages(agents: seq<Agent>, members: seq<nat>, treasury: nat, budget: nat, out: seq<Agent>, paid: nat,
                        who: seq<nat>, ws: seq<real>, wages: seq<nat>, cut: nat) {
    && AreNeedy(agents, members, PovertyLine(agents, members, 50.0), who, ws)
    && AreWages(wages, ws, budget)
    && PaidFirst(agents, out, who, wages, cut)
    && paid == SumTo(wages, cut, Same) <= Min(budget, treasury)
    && (cut < |who| ==> paid + wages[cut] > Min(budget, treasury))
  }

  ghost predicate WagesPaid(agents: seq<Agent>, members: seq<nat>, treasury: nat, budget: nat, out: seq<Agent>, paid: nat) {
    exists who, ws, wages, cut: nat :: Wages(agents, members, treasury, budget, out, paid, who, ws, wages, cut)
  }

  method PayWages(agents: seq<Agent>, members: seq<nat>, treasury: nat, rate: real)
    returns (out: seq<Agent>, paid: nat)
    requires ValidMembers(agents, members) && rate >= 0.0
    ensures WagesPaid(agents, members, treasury, WageBudget(treasury, rate), out, paid)
    ensures paid <= treasury
    ensures SameButWealth(agents, out) && Total(out, WealthOf) == Total(agents, WealthOf) + paid
  {
    hide Total, PaidFirst, Need, Poor, Share, WageBudget, MeanWealth;
    var budget := WageBudget(treasury, rate);
    var line := FindPovertyLine(agents, members, 50.0);
    var who, ws := Needy(agents, members, line);
    var wages := WageList(ws, budget);
    var cut;
    out, paid, cut := PayInOrder(agents, who, wages, budget, treasury);
    PaidFirstFrame(agents, out, who, wages, cut);
    assert Wages(agents, members, treasury, budget, out, paid, who, ws, wages, cut);
  }

  method Soldiers(agents: seq<Agent>, members: seq<nat>) returns (who: seq<nat>)
    requires ValidMembers(agents, members)
    ensures Distinct(who) && forall k :: 0 <= k < |who| ==> who[k] < |agents|
    ensures forall i :: i in who <==> i in members && i < |agents| && agents[i].alive && agents[i].occupation == Soldier
  {
    who := [];
    for k := 0 to |members|
      invariant Distinct(who) && forall k :: 0 <= k < |who| ==> who[k] < |agents|
      invariant forall i :: i in who <==>
        i in members[..k] && i < |agents| && agents[i].alive && agents[i].occupation == Soldier
    {
      var i := members[k];
      assert members[..k + 1] == members[..k] + [i];
      assert i !in members[..k];
      if agents[i].alive && agents[i].occupation == Soldier {
        who := who + [i];
      }
    }
    assert members[..|members|] == members;
  }

  function Stipend(treasury: nat, population: nat): nat
    requires population > 0
  {
    AtLeastOne(Trunc(treasury as real / population as real * AGNOSIS * 0.5))
  }

  lemma {:induction false} EqualSum(amounts: seq<nat>, n: nat, x: nat)
    requires n <= |amounts| && forall k :: 0 <= k < |amounts| ==> amounts[k] == x
    ensures SumTo(amounts, n, Same) == n * x
  {
    if n > 0 {
      EqualSum(amounts, n - 1, x);
    }
  }

  /** Garrison stipends: of equal payments, exactly as many are made as the Agnosis cap on the
      treasury allows. */
  ghost predicate Stipends(agents: seq<Agent>, members: seq<nat>, treasury: nat, stipend: nat, out: seq<Agent>,
                           who: seq<nat>, cut: nat) {
    && Distinct(who) && stipend >= 1
    && (forall i :: i in who <==> i in members && i < |agents| && agents[i].alive && agents[i].occupation == Soldier)
    && cut == Min(|who|, Trunc(treasury as real * AGNOSIS) / stipend)
    && PaidFirst(agents, out, who, seq(|who|, _ => stipend), cut)
  }

  ghost predicate StipendsPaid(agents: seq<Agent>, members: seq<nat>, treasury: nat, stipend: nat, out: seq<Agent>, paid: nat) {
    exists who, cut: nat :: Stipends(agents, members, treasury, stipend, out, who, cut) && paid == cut * stipend
  }

  method PayStipends(agents: seq<Agent>, members: seq<nat>, treasury: nat, population: nat)
    returns (out: seq<Agent>, paid: nat)
    requires ValidMembers(agents, members) && population > 0
    ensures StipendsPaid(agents, members, treasury, Stipend(treasury, population), out, paid)
    ensures paid <= treasury
    ensures SameButWealth(agents, out) && Total(out, WealthOf) == Total(agents, WealthOf) + paid
  {
    hide Total, PaidFirst, Stipend;
    var who := Soldiers(agents, members);
    var stipend := Stipend(treasury, population);
    StipendPositive(treasury, population);
    var cap := Trunc(treasury as real * AGNOSIS);
    assert cap <= treasury;
    var amounts := seq(|who|, _ => stipend);
    var cut;
    out, paid, cut := PayInOrder(agents, who, amounts, cap, treasury);
    EqualSum(amounts, cut, stipend);
    Quotient(cut, stipend, cap, |who|);
    PaidFirstFrame(agents, out, who, amounts, cut);
    assert Stipends(agents, members, treasury, stipend, out, who, cut);
  }

  lemma StipendPositive(treasury: nat, population: nat)
    requires population > 0
    ensures Stipend(treasury, population) >= 1
  {
  }

  lemma Quotient(n: nat, x: nat, cap: nat, most: nat)
    requires x >= 1 && n <= most && n * x <= cap && (n < most ==> n * x + x > cap)
    ensures n == Min(most, cap / x)
  {
    var q := cap / x;
    assert q * x <= cap < q * x + x;
    if q < n {
      LessMultiple(q, n, x);
    } else if n < most && n < q {
      LessMultiple(n, q, x);
    }
  }

  lemma LessMultiple(m: nat, n: nat, x: nat)
    requires m < n
    ensures m * x + x <= n * x
  {
    var d: nat := n - m - 1;
    assert n * x == (m + 1 + d) * x == m * x + x + d * x;
    assert d * x >= 0;
  }

  // ----- None of this pays the dead -------------------------------------------------------------------

  lemma TaxesSpareTheDead(agents: seq<Agent>, members: seq<nat>, rate: real)
    requires rate >= 0.0
    ensures DeadGainNothing(agents, Taxed(agents, members, rate))
  {
    hide TaxDue;
  }

  lemma WorksSpareTheDead(agents: seq<Agent>, members: seq<nat>, budget: nat, out: seq<Agent>, paid: nat)
    requires WorksDone(agents, members, budget, out, paid)
    ensures DeadGainNothing(agents, out)
  {
    hide MeanWealth, Need, Share, WeightTo, PaidOut;
    var who, ws :| Works(agents, members, budget, out, paid, who, ws);
    assert Works(agents, members, budget, out, paid, who, ws);
    if budget > 0 && who != [] {
      PaidOutSparesTheDead(agents, out, who, ws, budget);
    }
  }

  lemma PaidFirstSparesTheDead(agents: seq<Agent>, out: seq<Agent>, who: seq<nat>, amounts: seq<nat>, cut: nat)
    requires PaidFirst(agents, out, who, amounts, cut)
    requires forall i :: i in who ==> i < |agents| && agents[i].alive
    ensures DeadGainNothing(agents, out)
  {
    forall i | 0 <= i < |out| ensures out[i].alive == agents[i].alive && (agents[i].alive || out[i] == agents[i]) {
      if i in who {
        var k :| 0 <= k < |who| && who[k] == i;
      }
    }
  }

  lemma WagesSpareTheDead(agents: seq<Agent>, members: seq<nat>, treasury: nat, budget: nat, out: seq<Agent>, paid: nat)
    requires WagesPaid(agents, members, treasury, budget, out, paid)
    ensures DeadGainNothing(agents, out)
  {
    hide MeanWealth, Need, AreWages, PaidFirst;
    var who, ws, wages, cut: nat :| Wages(agents, members, treasury, budget, out, paid, who, ws, wages, cut);
    assert Wages(agents, members, treasury, budget, out, paid, who, ws, wages, cut);
    PaidFirstSparesTheDead(agents, out, who, wages, cut);
  }

  lemma StipendsSpareTheDead(agents: seq<Agent>, members: seq<nat>, treasury: nat, stipend: nat, out: seq<Agent>, paid: nat)
    requires StipendsPaid(agents, members, treasury, stipend, out, paid)
    ensures DeadGainNothing(agents, out)
  {
    hide PaidFirst;
    var who, cut: nat :| Stipends(agents, members, treasury, stipend, out, who, cut) && paid == cut * stipend;
    assert Stipends(agents, members, treasury, stipend, out, who, cut);
    PaidFirstSparesTheDead(agents, out, who, seq(|who|, _ => stipend), cut);
  }

  lemma DeadGainNothingTwice(x: seq<Agent>, y: seq<Agent>, z: seq<Agent>)
    requires DeadGainNothing(x, y) && DeadGainNothing(y, z)
    ensures DeadGainNothing(x, z)
  {
  }
}
