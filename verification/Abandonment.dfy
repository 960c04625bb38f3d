/** What becomes of an abandoned settlement's treasury:
    processSettlementAbandonment of internal/engine/settlement_lifecycle.go. */
module Abandonment {
  import opened Accounts
  import opened Rosters
  import opened Hex

  /** The nearest settlements each get an equal share, and the first of them the remainder. */
  function ShareOf(treasury: nat, near: seq<nat>, t: nat): nat
    requires near != []
  {
    if t !in near then 0
    else treasury / |near| + if near[0] == t then treasury % |near| else 0
  }

  function Grant(t: Settlement, crowns: nat): Settlement {
    t.(treasury := t.treasury + crowns)
  }

  method GiveEach(setts: seq<Settlement>, near: seq<nat>, share: nat) returns (out: seq<Settlement>)
    requires Distinct(near) && forall k :: 0 <= k < |near| ==> near[k] < |setts|
    ensures |out| == |setts|
    ensures forall t :: 0 <= t < |setts| ==> out[t] == Grant(setts[t], if t in near then share else 0)
    ensures Total(out, TreasuryOf) == Total(setts, TreasuryOf) + |near| * share
  {
    hide Total;
    out := setts;
    for k := 0 to |near|
      invariant |out| == |setts|
      invariant Total(out, TreasuryOf) == Total(setts, TreasuryOf) + k * share
      invariant forall t :: 0 <= t < |setts| ==> out[t] == Grant(setts[t], if t in near[..k] then share else 0)
    {
      assert near[..k + 1] == near[..k] + [near[k]];
      assert near[k] !in near[..k];
      TotalUpdate(out, near[k], Grant(out[near[k]], share), TreasuryOf);
      out := out[near[k] := Grant(out[near[k]], share)];
      assert (k + 1) * share == k * share + share;
    }
    assert near[..|near|] == near;
  }

  lemma Division(treasury: nat, n: nat)
    requires n > 0
    ensures n * (treasury / n) + treasury % n == treasury
  {
  }

  /** Hands out the treasury of s and then zeroes it. Nothing is lost unless s is among its own heirs,
      in which case exactly its own share is. */
  method ShareOut(setts: seq<Settlement>, s: nat, near: seq<nat>) returns (out: seq<Settlement>)
    requires s < |setts| && near != [] && Distinct(near) && forall k :: 0 <= k < |near| ==> near[k] < |setts|
    ensures |out| == |setts| && out[s] == setts[s].(treasury := 0)
    ensures forall t :: 0 <= t < |setts| && t != s ==> out[t] == Grant(setts[t], ShareOf(setts[s].treasury, near, t))
    ensures Total(out, TreasuryOf) + ShareOf(setts[s].treasury, near, s) == Total(setts, TreasuryOf)
  {
    hide Total;
    var treasury := setts[s].treasury;
    var share, n := treasury / |near|, |near|;
    Division(treasury, n);
    out := GiveEach(setts, near, share);
    var remainder := treasury - n * share;
    TotalUpdate(out, near[0], Grant(out[near[0]], remainder), TreasuryOf);
    out := out[near[0] := Grant(out[near[0]], remainder)];
    TotalUpdate(out, s, out[s].(treasury := 0), TreasuryOf);
    out := out[s := out[s].(treasury := 0)];
  }

  // ----- The heirs ---------------------------------------------------------------------

  const HEIRS: nat := 3

  ghost predicate Active(setts: seq<Settlement>, t: nat) { t < |setts| && setts[t].population > 0 }

  ghost predicate Ascending(pos: seq<Coord>, from: Coord, list: seq<nat>) {
    && (forall k :: 0 <= k < |list| ==> list[k] < |pos|)
    && (forall j, k :: 0 <= j < k < |list| ==> Distance(from, pos[list[j]]) <= Distance(from, pos[list[k]]))
  }

  /** Up to three active settlements, nearest first, none of the others nearer. Ties may go either way. */
  ghost predicate IsNearest(setts: seq<Settlement>, pos: seq<Coord>, from: Coord, near: seq<nat>)
    requires |pos| == |setts|
  {
    && Distinct(near) && |near| <= HEIRS && Ascending(pos, from, near)
    && (forall k :: 0 <= k < |near| ==> Active(setts, near[k]))
    && (forall t: nat :: Active(setts, t) && t !in near ==>
          |near| == HEIRS && forall k :: 0 <= k < HEIRS ==> Distance(from, pos[near[k]]) <= Distance(from, pos[t]))
  }

  lemma InsertedAscending(pos: seq<Coord>, from: Coord, list: seq<nat>, p: nat, t: nat)
    requires p <= |list| && t < |pos| && Ascending(pos, from, list)
    requires forall k :: 0 <= k < p ==> Distance(from, pos[list[k]]) <= Distance(from, pos[t])
    requires p < |list| ==> Distance(from, pos[t]) <= Distance(from, pos[list[p]])
    ensures Ascending(pos, from, Inserted(list, p, t))
  {
    hide Distance;
  }

  method InsertByDistance(pos: seq<Coord>, from: Coord, list: seq<nat>, t: nat) returns (out: seq<nat>)
    requires t < |pos| && Ascending(pos, from, list) && t !in list && Distinct(list)
    ensures Ascending(pos, from, out) && Distinct(out)
    ensures forall x :: x in out <==> x in list || x == t
  {
    hide Distance, Inserted, Distinct;
    var p := 0;
    while p < |list| && Distance(from, pos[list[p]]) <= Distance(from, pos[t])
      invariant p <= |list|
      invariant forall k :: 0 <= k < p ==> Distance(from, pos[list[k]]) <= Distance(from, pos[t])
    {
      p := p + 1;
    }
    InsertedDistinct(list, p, t);
    InsertedAscending(pos, from, list, p, t);
    out := Inserted(list, p, t);
  }

  method NearestActive(setts: seq<Settlement>, pos: seq<Coord>, from: Coord) returns (near: seq<nat>)
    requires |pos| == |setts|
    ensures IsNearest(setts, pos, from, near)
  {
    hide Distance;
    var sorted: seq<nat> := [];
    for t := 0 to |setts|
      invariant Ascending(pos, from, sorted) && Distinct(sorted)
      invariant forall x :: x in sorted <==> 0 <= x < t && Active(setts, x)
    {
      if setts[t].population > 0 {
        sorted := InsertByDistance(pos, from, sorted, t);
      }
    }
    near := if |sorted| <= HEIRS then sorted else sorted[..HEIRS];
    forall t: nat | Active(setts, t) && t !in near
      ensures |near| == HEIRS && forall k :: 0 <= k < HEIRS ==> Distance(from, pos[near[k]]) <= Distance(from, pos[t])
    {
      assert t in sorted;
      var j :| 0 <= j < |sorted| && sorted[j] == t;
      assert j >= HEIRS;
    }
  }

  /** On distinct hexes an active settlement is always its own first heir. */
  lemma OwnFirstHeir(setts: seq<Settlement>, pos: seq<Coord>, s: nat, near: seq<nat>)
    requires |pos| == |setts| && s < |setts| && Distinct(pos) && IsNearest(setts, pos, pos[s], near)
    ensures setts[s].population > 0 ==> near != [] && near[0] == s
    ensures setts[s].population == 0 ==> s !in near
  {
    hide Distance;
    forall t | 0 <= t < |setts| ensures Distance(pos[s], pos[t]) == 0 <==> t == s { DistanceZero(pos[s], pos[t]); }
    if setts[s].population > 0 {
      assert Active(setts, s);
      var first := if near == [] then s else near[0];
      assert Distance(pos[s], pos[first]) == 0 <==> first == s;
      if s !in near { assert false; }
      var k :| 0 <= k < |near| && near[k] == s;
      assert Distance(pos[s], pos[near[0]]) <= Distance(pos[s], pos[near[k]]);
    }
  }

  /** The first heir's share is never empty. */
  lemma FirstShare(treasury: nat, near: seq<nat>, s: nat)
    requires near != [] && near[0] == s && treasury > 0
    ensures ShareOf(treasury, near, s) > 0
  {
    Division(treasury, |near|);
  }

  /** Redistributes the treasury of a settlement nobody lives in. Crowns are conserved if and only if
      it had none or its population counter, like the people, was at zero: with a stale counter it
      inherits from itself just before its treasury is zeroed. */
  method Redistribute(setts: seq<Settlement>, pos: seq<Coord>, s: nat) returns (out: seq<Settlement>, ghost near: seq<nat>)
    requires s < |setts| && |pos| == |setts| && Distinct(pos)
    ensures |out| == |setts| && IsNearest(setts, pos, pos[s], near)
    ensures setts[s].treasury == 0 || near == [] ==> out == setts
    ensures setts[s].treasury > 0 && near != [] ==>
              && out[s] == setts[s].(treasury := 0)
              && (forall t :: 0 <= t < |setts| && t != s ==> out[t] == Grant(setts[t], ShareOf(setts[s].treasury, near, t)))
    ensures Total(out, TreasuryOf) == Total(setts, TreasuryOf) <==> setts[s].treasury == 0 || setts[s].population == 0
  {
    hide Total, Distance, ShareOf, Ascending;
    out := setts;
    var heirs := NearestActive(setts, pos, pos[s]);
    near := heirs;
    OwnFirstHeir(setts, pos, s, heirs);
    if setts[s].treasury > 0 && heirs != [] {
      out := ShareOut(setts, s, heirs);
      if heirs[0] == s {
        FirstShare(setts[s].treasury, heirs, s);
      }
      NoShare(setts[s].treasury, heirs, s);
    }
  }

  /** An empty settlement with 10 crowns and a counter still at 1, next to one of five people: it is its own first
      heir, and its half of the treasury is lost. */
  lemma StaleCounterLeaks()
    ensures var setts := [Settlement(10, 0.1, 1, None), Settlement(0, 0.1, 5, None)];
            var pos := [Coord(0, 0), Coord(1, 0)];
            Distinct(pos) && IsNearest(setts, pos, pos[0], [0, 1]) && ShareOf(setts[0].treasury, [0, 1], 0) == 5
  {
  }

  lemma NoShare(treasury: nat, near: seq<nat>, s: nat)
    requires near != []
    ensures s !in near ==> ShareOf(treasury, near, s) == 0
  {
  }

  ghost predicate SomeActive(living: seq<nat>) { exists t :: 0 <= t < |living| && living[t] > 0 }

  ghost predicate Counted(setts: seq<Settlement>, living: seq<nat>) {
    |setts| == |living| && forall s :: 0 <= s < |setts| ==> setts[s].population == living[s]
  }

  /** One redistribution, in a world whose population counters are right. */
  lemma CountedStep(setts: seq<Settlement>, pos: seq<Coord>, living: seq<nat>, s: nat, out: seq<Settlement>, near: seq<nat>)
    requires Counted(setts, living) && |pos| == |setts| && s < |setts| && living[s] == 0 && |out| == |setts|
    requires IsNearest(setts, pos, pos[s], near)
    requires setts[s].treasury == 0 || near == [] ==> out == setts
    requires setts[s].treasury > 0 && near != [] ==>
               && out[s] == setts[s].(treasury := 0)
               && (forall t :: 0 <= t < |setts| && t != s ==> out[t] == Grant(setts[t], ShareOf(setts[s].treasury, near, t)))
    ensures Counted(out, living)
    ensures forall t :: 0 <= t < |setts| && t != s && living[t] == 0 ==> out[t] == setts[t]
    ensures if SomeActive(living) then out[s].treasury == 0 else out == setts
  {
    hide Distance;
    forall t | 0 <= t < |setts| && living[t] == 0 ensures t !in near { assert setts[t].population == 0; }
    if near != [] {
      assert Active(setts, near[0]);
      assert living[near[0]] > 0;
    }
    if SomeActive(living) {
      var t :| 0 <= t < |living| && living[t] > 0;
      assert Active(setts, t);
    }
  }

  /** Abandons one settlement nobody lives in, in a world whose population counters are right. */
  method AbandonOne(setts: seq<Settlement>, pos: seq<Coord>, living: seq<nat>, s: nat) returns (out: seq<Settlement>)
    requires Counted(setts, living) && |pos| == |setts| && Distinct(pos) && s < |setts| && living[s] == 0
    ensures Counted(out, living) && Total(out, TreasuryOf) == Total(setts, TreasuryOf)
    ensures forall t :: 0 <= t < |setts| && t != s && living[t] == 0 ==> out[t] == setts[t]
    ensures if SomeActive(living) then out[s].treasury == 0 else out == setts
  {
    hide Total, Distance, IsNearest, SomeActive, ShareOf, Distinct;
    ghost var near;
    out, near := Redistribute(setts, pos, s);
    CountedStep(setts, pos, living, s, out, near);
    assert out[s := out[s].(population := 0)] == out;
    out := out[s := out[s].(population := 0)];
  }

  class Registry {
    var setts: seq<Settlement>
    var hexSettled: seq<bool>             // whether the settlement's hex still refers to it
    var abandonedWeeks: map<nat, nat>

    constructor (setts: seq<Settlement>, hexSettled: seq<bool>, abandonedWeeks: map<nat, nat>)
      ensures this.setts == setts && this.hexSettled == hexSettled && this.abandonedWeeks == abandonedWeeks
    {
      this.setts, this.hexSettled, this.abandonedWeeks := setts, hexSettled, abandonedWeeks;
    }

    /** The weekly pass over all settlements: treasuries are conserved as long as every population counter
        is right, and no abandoned settlement keeps crowns while anybody is left to inherit them. */
    method ProcessAbandonment(living: seq<nat>, pos: seq<Coord>)
      requires |setts| == |hexSettled| == |pos| && Distinct(pos) && Counted(setts, living)
      modifies this
      ensures |setts| == |hexSettled| == |old(setts)| && Counted(setts, living)
      ensures Total(setts, TreasuryOf) == old(Total(setts, TreasuryOf))
      ensures forall s :: 0 <= s < |setts| ==> (hexSettled[s] <==> old(hexSettled[s]) && living[s] > 0)
      ensures SomeActive(living) ==>
                forall s :: 0 <= s < |setts| && living[s] == 0 && old(hexSettled[s]) ==> setts[s].treasury == 0
      ensures !SomeActive(living) ==> setts == old(setts)
      ensures forall s :: 0 <= s < |setts| && living[s] > 0 ==> s !in abandonedWeeks
    {
      hide Total, Distance, SomeActive, Distinct;
      for s := 0 to |setts|
        invariant |setts| == |hexSettled| == |old(setts)| && Counted(setts, living)
        invariant Total(setts, TreasuryOf) == old(Total(setts, TreasuryOf))
        invariant forall t :: 0 <= t < |setts| ==>
          (hexSettled[t] <==> old(hexSettled[t]) && (t >= s || living[t] > 0))
        invariant SomeActive(living) ==>
          forall t :: 0 <= t < s && living[t] == 0 && old(hexSettled[t]) ==> setts[t].treasury == 0
        invariant !SomeActive(living) ==> setts == old(setts)
        invariant forall t :: 0 <= t < s && living[t] > 0 ==> t !in abandonedWeeks
      {
        if setts[s].population == 0 && !hexSettled[s] { continue; }
        if living[s] == 0 {
          abandonedWeeks := abandonedWeeks[s := if s in abandonedWeeks then abandonedWeeks[s] + 1 else 1];
          if abandonedWeeks[s] >= 1 {
            setts := AbandonOne(setts, pos, living, s);
            hexSettled := hexSettled[s := false];
          }
        } else {
          abandonedWeeks := abandonedWeeks - {s};
        }
      }
    }
  }
}
