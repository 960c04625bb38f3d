/** Splitting a budget of whole crowns in proportion to weights, as public works
    (internal/engine/market.go) and faction patronage (internal/engine/factions.go) do. */
module Payout {
  import opened Accounts

  function WeightTo(ws: seq<real>, n: nat): real
    requires n <= |ws|
  {
    if n == 0 then 0.0 else WeightTo(ws, n - 1) + ws[n - 1]
  }

  ghost predicate Positive(ws: seq<real>) {
    forall k :: 0 <= k < |ws| ==> ws[k] > 0.0
  }

  lemma {:induction false} WeightMono(ws: seq<real>, m: nat, n: nat)
    requires m <= n <= |ws| && Positive(ws)
    ensures WeightTo(ws, m) <= WeightTo(ws, n)
    ensures n > 0 ==> WeightTo(ws, n) > 0.0
  {
    if n > 0 {
      WeightMono(ws, if m < n then m else n - 1, n - 1);
    }
  }

  /** A recipient's exact part of the budget. */
  function Part(budget: nat, weight: real, total: real): real
    requires total > 0.0
  {
    budget as real * weight / total
  }

  lemma PartMonotone(budget: nat, light: real, heavy: real, total: real)
    requires light <= heavy && total > 0.0
    ensures Part(budget, light, total) <= Part(budget, heavy, total)
    ensures Part(budget, 0.0, total) == 0.0 && Part(budget, total, total) == budget as real
  {
    var b, p, q := budget as real, Part(budget, light, total), Part(budget, heavy, total);
    assert (q - p) * total == b * heavy - b * light == b * (heavy - light) >= 0.0;
  }

  lemma PartSum(budget: nat, x: real, y: real, total: real)
    requires total > 0.0
    ensures Part(budget, x + y, total) == Part(budget, x, total) + Part(budget, y, total)
  {
    assert budget as real * (x + y) == budget as real * x + budget as real * y;
  }

  /** The part rounded down to whole crowns. */
  function Share(budget: nat, weight: real, total: real): nat
    requires weight >= 0.0 && total > 0.0
  {
    PartMonotone(budget, 0.0, weight, total);
    Trunc(Part(budget, weight, total))
  }

  /** A larger weight never earns less. */
  lemma ShareMonotone(budget: nat, light: real, heavy: real, total: real)
    requires 0.0 <= light <= heavy && total > 0.0
    ensures Share(budget, light, total) <= Share(budget, heavy, total)
  {
    hide Part;
    PartMonotone(budget, 0.0, light, total);
    PartMonotone(budget, light, heavy, total);
  }

  ghost function PaidTo(budget: nat, ws: seq<real>, n: nat): nat
    requires n <= |ws| && Positive(ws)
  {
    if n == 0 then 0
    else
      WeightMono(ws, n, |ws|);
      PaidTo(budget, ws, n - 1) + Share(budget, ws[n - 1], WeightTo(ws, |ws|))
  }

  /** The first n shares fall short of their exact parts by less than one crown each. */
  lemma {:induction false} PaidToBounds(budget: nat, ws: seq<real>, n: nat)
    requires n <= |ws| && Positive(ws) && WeightTo(ws, |ws|) > 0.0
    ensures var exact, paid := Part(budget, WeightTo(ws, n), WeightTo(ws, |ws|)), PaidTo(budget, ws, n);
            && paid as real <= exact <= budget as real
            && (if n == 0 then exact == 0.0 else exact < paid as real + n as real)
            && (n == |ws| ==> exact == budget as real)
  {
    hide Part;
    var total := WeightTo(ws, |ws|);
    WeightMono(ws, n, |ws|);
    PartMonotone(budget, WeightTo(ws, n), total, total);
    if n > 0 {
      PaidToBounds(budget, ws, n - 1);
      PartSum(budget, WeightTo(ws, n - 1), ws[n - 1], total);
    }
  }

  /** The i-th agent after the first n recipients of a payout were paid. */
  ghost predicate PaidOut(agents: seq<Agent>, out: seq<Agent>, who: seq<nat>, ws: seq<real>, budget: nat, n: nat)
    requires |who| == |ws| && n <= |who| && Positive(ws) && (n > 0 ==> WeightTo(ws, |ws|) > 0.0)
  {
    && |out| == |agents|
    && (forall k :: 0 <= k < |who| ==> who[k] < |agents|)
    && (forall i :: 0 <= i < |out| && i !in who ==> out[i] == agents[i])
    && (forall k :: 0 <= k < |who| ==>
          out[who[k]] == if k < n then Credit(agents[who[k]], Share(budget, ws[k], WeightTo(ws, |ws|)))
                         else agents[who[k]])
  }

  function Credit(a: Agent, crowns: nat): Agent {
    a.(wealth := a.wealth + crowns)
  }

  lemma PaidOutStep(agents: seq<Agent>, out: seq<Agent>, who: seq<nat>, ws: seq<real>, budget: nat, n: nat)
    requires |who| == |ws| && n < |who| && Positive(ws) && WeightTo(ws, |ws|) > 0.0 && Distinct(who)
    requires PaidOut(agents, out, who, ws, budget, n)
    ensures var x := Credit(out[who[n]], Share(budget, ws[n], WeightTo(ws, |ws|)));
            && PaidOut(agents, out[who[n] := x], who, ws, budget, n + 1)
            && Total(out[who[n] := x], WealthOf) ==
               Total(out, WealthOf) + Share(budget, ws[n], WeightTo(ws, |ws|))
  {
    hide Share, Total;
    var x := Credit(out[who[n]], Share(budget, ws[n], WeightTo(ws, |ws|)));
    TotalUpdate(out, who[n], x, WealthOf);
  }

  /** Pays every recipient its share. The guard against overspending never stops the
      payout: all are paid, less than one crown a head is left over. */
  method PayProportionally(agents: seq<Agent>, who: seq<nat>, ws: seq<real>, budget: nat)
    returns (out: seq<Agent>, paid: nat)
    requires |who| == |ws| > 0 && Positive(ws)
    requires Distinct(who) && forall k :: 0 <= k < |who| ==> who[k] < |agents|
    ensures WeightTo(ws, |ws|) > 0.0
    ensures PaidOut(agents, out, who, ws, budget, |who|)
    ensures budget - |who| < paid <= budget
    ensures Total(out, WealthOf) == Total(agents, WealthOf) + paid
  {
    hide Share, Part, Total, Distinct;
    WeightMono(ws, 0, |ws|);
    var total := 0.0;
    for k := 0 to |ws|
      invariant total == WeightTo(ws, k)
    {
      total := total + ws[k];
    }
    out, paid := agents, 0;
    for k := 0 to |who|
      invariant paid == PaidTo(budget, ws, k)
      invariant PaidOut(agents, out, who, ws, budget, k)
      invariant Total(out, WealthOf) == Total(agents, WealthOf) + paid
    {
      var payment := Share(budget, ws[k], total);
      PaidOutStep(agents, out, who, ws, budget, k);
      PaidToBounds(budget, ws, k + 1);
      if payment == 0 {
        assert out[who[k] := Credit(out[who[k]], 0)] == out;
      } else {
        if paid + payment > budget { break; }
        out := out[who[k] := Credit(out[who[k]], payment)];
        paid := paid + payment;
      }
    }
    PaidToBounds(budget, ws, |ws|);
  }

  lemma PaidOutSparesTheDead(agents: seq<Agent>, out: seq<Agent>, who: seq<nat>, ws: seq<real>, budget: nat)
    requires |who| == |ws| && Positive(ws) && (|who| > 0 ==> WeightTo(ws, |ws|) > 0.0)
    requires PaidOut(agents, out, who, ws, budget, |who|)
    requires forall i :: i in who ==> i < |agents| && agents[i].alive
    ensures DeadGainNothing(agents, out)
  {
    hide Share, WeightTo;
    forall i | 0 <= i < |out| ensures out[i].alive == agents[i].alive && (agents[i].alive || out[i] == agents[i]) {
      if i in who {
        var k :| 0 <= k < |who| && who[k] == i;
      }
    }
  }
}
