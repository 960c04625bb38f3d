/** Spreading producers over a settlement's hexes: computeHexDistribution and the slot scan of
    bestProductionHex in internal/engine/simulation.go. */
module HexAssignment {
  import opened Accounts

  /** A hex of the neighbourhood; `usable` is false off the map and on the ocean. */
  datatype Site = Site(usable: bool, cap: real, health: real)

  /** math.Round of a non-negative number: halves go up. */
  function Round(x: real): nat
    requires x >= 0.0
  {
    Trunc(x + 0.5)
  }

  predicate Viable(s: Site) { s.usable && s.cap > 0.0 }

  /** Capacity times health, but at least one slot. */
  function Weight(s: Site): (w: nat)
    ensures w >= 1
  {
    var x := s.cap * s.health;
    if x < 0.0 then 1 else if Round(x) < 1 then 1 else Round(x)
  }

  /** One entry per viable hex: which site, and the running total of weights up to and including it. */
  datatype Slot = Slot(site: nat, cum: nat)

  /** `weights` are the weights behind the running totals. */
  ghost predicate Cumulative(entries: seq<Slot>, weights: seq<nat>) {
    && |weights| == |entries|
    && (forall e :: 0 <= e < |entries| ==> entries[e].cum == SumTo(weights, e + 1, Same))
  }

  /** The viable ones among the first n sites, in order. */
  ghost function ViableTo(sites: seq<Site>, n: nat): seq<nat>
    requires n <= |sites|
  {
    if n == 0 then [] else ViableTo(sites, n - 1) + if Viable(sites[n - 1]) then [n - 1] else []
  }

  ghost function WeightsTo(sites: seq<Site>, n: nat): seq<nat>
    requires n <= |sites|
  {
    if n == 0 then [] else WeightsTo(sites, n - 1) + if Viable(sites[n - 1]) then [Weight(sites[n - 1])] else []
  }

  lemma CumulativeAppend(entries: seq<Slot>, weights: seq<nat>, site: nat, w: nat)
    requires Cumulative(entries, weights)
    ensures var total := SumTo(weights, |weights|, Same) + w;
            && Cumulative(entries + [Slot(site, total)], weights + [w])
            && total == SumTo(weights + [w], |weights| + 1, Same)
  {
    forall e | 0 <= e <= |weights| ensures SumTo(weights + [w], e, Same) == SumTo(weights, e, Same) { SumToAgree<nat>(weights, weights + [w], e, Same); }
  }

  /** Exactly the viable hexes get slots, each as many as its weight. */
  method ComputeHexDistribution(sites: seq<Site>) returns (entries: seq<Slot>, total: nat)
    ensures var weights := WeightsTo(sites, |sites|);
            && |entries| == |ViableTo(sites, |sites|)|
            && (forall e :: 0 <= e < |entries| ==> entries[e].site == ViableTo(sites, |sites|)[e])
            && Cumulative(entries, weights)
            && total == SumTo(weights, |weights|, Same)
  {
    hide Viable, Weight, Cumulative, SumTo;
    entries, total := [], 0;
    NoSlots();
    for i := 0 to |sites|
      invariant |entries| == |ViableTo(sites, i)|
      invariant forall e :: 0 <= e < |entries| ==> entries[e].site == ViableTo(sites, i)[e]
      invariant Cumulative(entries, WeightsTo(sites, i))
      invariant total == SumTo<nat>(WeightsTo(sites, i), |WeightsTo(sites, i)|, Same)
    {
      if Viable(sites[i]) {
        CumulativeAppend(entries, WeightsTo(sites, i), i, Weight(sites[i]));
        assert WeightsTo(sites, i + 1) == WeightsTo(sites, i) + [Weight(sites[i])];
        total := total + Weight(sites[i]);
        entries := entries + [Slot(i, total)];
      } else {
        assert WeightsTo(sites, i + 1) == WeightsTo(sites, i);
      }
    }
  }

  lemma NoSlots()
    ensures Cumulative([], []) && SumTo<nat>([], 0, Same) == 0
  {
  }

  /** Entry e owns the slots from the total before it up to its own. */
  ghost predicate Owns(weights: seq<nat>, e: nat, slot: nat) {
    e < |weights| && SumTo(weights, e, Same) <= slot < SumTo(weights, e + 1, Same)
  }

  /** A slot has one owner. */
  lemma OwnerIsUnique(weights: seq<nat>, d: nat, e: nat, slot: nat)
    requires Owns(weights, d, slot) && Owns(weights, e, slot)
    ensures d == e
  {
    if d < e { SumToGrows<nat>(weights, d + 1, e, Same); }
    if e < d { SumToGrows<nat>(weights, e + 1, d, Same); }
  }

  /** The scan finds the owner of an agent's slot; it never runs off the end. */
  method PickEntry(entries: seq<Slot>, total: nat, id: nat, ghost weights: seq<nat>) returns (e: nat)
    requires Cumulative(entries, weights) && total == SumTo(weights, |weights|, Same) && total > 0
    ensures Owns(weights, e, id % total)
  {
    var slot := id % total;
    for k := 0 to |entries|
      invariant SumTo(weights, k, Same) <= slot
    {
      if slot < entries[k].cum { return k; }
    }
    assert false;
  }

  // ----- How many agents a hex gets ------------------------------------------------------------

  /** Entry e owns the slot of this agent. */
  ghost predicate WorksAt(weights: seq<nat>, e: nat, id: nat)
    requires SumTo(weights, |weights|, Same) > 0
  {
    Owns(weights, e, id % SumTo(weights, |weights|, Same))
  }

  /** Agents among the n IDs from a on who work at entry e. */
  ghost function Workers(weights: seq<nat>, e: nat, a: nat, n: nat): nat
    requires SumTo(weights, |weights|, Same) > 0
  {
    if n == 0 then 0 else Workers(weights, e, a, n - 1) + if WorksAt(weights, e, a + n - 1) then 1 else 0
  }

  /** Starting one later drops the first ID and takes in the next. */
  lemma {:induction false} WorkersShift(weights: seq<nat>, e: nat, a: nat, n: nat)
    requires SumTo(weights, |weights|, Same) > 0
    ensures Workers(weights, e, a + 1, n) + (if WorksAt(weights, e, a) then 1 else 0) == Workers(weights, e, a, n + 1)
  {
    hide WorksAt, SumTo;
    if n > 0 {
      WorkersShift(weights, e, a, n - 1);
      assert a + 1 + n - 1 == a + n;
    }
  }

  lemma SmallMod(x: nat, d: nat)
    requires x < d
    ensures x % d == x
  {
  }

  lemma {:induction false} WorkersFromZero(weights: seq<nat>, e: nat, n: nat)
    requires e < |weights| && 0 < SumTo(weights, |weights|, Same) && n <= SumTo(weights, |weights|, Same)
    ensures var low, high := SumTo(weights, e, Same), SumTo(weights, e + 1, Same);
            Workers(weights, e, 0, n) == if n <= low then 0 else if n <= high then n - low else high - low
  {
    SumToGrows<nat>(weights, e, e + 1, Same);
    hide SumTo;
    if n > 0 {
      WorkersFromZero(weights, e, n - 1);
      SmallMod(n - 1, SumTo(weights, |weights|, Same));
    }
  }

  lemma ModPeriod(x: nat, d: nat)
    requires d > 0
    ensures (x + d) % d == x % d
  {
    var k := (x + d) / d - x / d - 1;
    assert d * k == x % d - (x + d) % d;
    assert k >= 1 ==> d * k >= d;
    assert k <= -1 ==> d * k + d <= 0;
  }

  /** Any run of `total` consecutive agent IDs puts exactly its weight in workers on each hex. */
  lemma {:induction false} FairAssignment(weights: seq<nat>, e: nat, a: nat)
    requires e < |weights| && SumTo(weights, |weights|, Same) > 0
    ensures Workers(weights, e, a, SumTo(weights, |weights|, Same)) == weights[e]
    decreases a
  {
    var total := SumTo(weights, |weights|, Same);
    if a == 0 {
      WorkersFromZero(weights, e, total);
      SumToGrows<nat>(weights, e + 1, |weights|, Same);
    } else {
      hide Owns;
      FairAssignment(weights, e, a - 1);
      WorkersShift(weights, e, a - 1, total);
      ModPeriod(a - 1, total);
    }
  }
}
