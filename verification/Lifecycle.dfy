/** The week's end of internal/engine/simulation.go for settlements: counters are recounted before the migration
    passes, nobody dies until abandonment, and so abandonment finds the exact counters it needs. */
module Lifecycle {
  import opened Accounts
  import opened Hex
  import opened Membership
  import Abandonment

  ghost predicate NoDeaths(ops: seq<Op>) {
    forall k :: 0 <= k < |ops| ==> !ops[k].Died?
  }

  /** A recount mends the counters for as long as nobody dies after it. */
  lemma {:induction false} RecountMends(before: seq<Op>, after: seq<Op>, n: nat, atFirst: bool)
    requires NoDeaths(after) && n <= |after|
    ensures Tally(before + [Recounted] + after, |before| + 1 + n, atFirst)
  {
    if n > 0 {
      RecountMends(before, after, n - 1, atFirst);
    }
  }

  /** The two views of the settlements agree on population and hex. */
  ghost predicate Mirrors(towns: seq<Town>, setts: seq<Settlement>, hexSettled: seq<bool>) {
    && |towns| == |setts| == |hexSettled|
    && forall i :: 0 <= i < |towns| ==> setts[i].population == towns[i].population && hexSettled[i] == towns[i].settled
  }

  method CountAll(c: Census) returns (living: seq<nat>)
    requires c.Valid()
    ensures |living| == |c.towns|
    ensures forall i :: 0 <= i < |living| ==> living[i] == |c.At(c.towns[i].id)|
  {
    hide Residents, RollOk, RollsOk, Covered, HomesOk, TownsOk;
    living := [];
    for i := 0 to |c.towns|
      invariant |living| == i && forall k :: 0 <= k < i ==> living[k] == |c.At(c.towns[k].id)|
    {
      var id := c.towns[i].id;
      RollAt(c.people, c.agents, c.lists, id);
      var n := CountLiving(c.people, ListOf(c.lists, id), c.agents, id);
      living := living + [n];
    }
  }

  /** With exact counters the abandonment pass conserves treasuries, releases exactly the settlements nobody lives
      in, and leaves the counters exact. */
  method AbandonEmpty(c: Census, r: Abandonment.Registry, pos: seq<Coord>)
    requires c.Valid() && c.Exact() && Mirrors(c.towns, r.setts, r.hexSettled) && |pos| == |c.towns| && Distinct(pos)
    modifies c`towns, r
    ensures c.Valid() && c.Exact() && Mirrors(c.towns, r.setts, r.hexSettled)
    ensures Total(r.setts, TreasuryOf) == old(Total(r.setts, TreasuryOf))
    ensures |c.towns| == |old(c.towns)|
    ensures forall i :: 0 <= i < |c.towns| ==>
              c.towns[i] == old(c.towns)[i].(settled := old(c.towns)[i].settled && c.At(old(c.towns)[i].id) != {})
    ensures (exists i :: 0 <= i < |c.towns| && c.At(c.towns[i].id) != {}) ==>
              forall i :: 0 <= i < |c.towns| && c.At(c.towns[i].id) == {} && old(c.towns[i].settled) ==> r.setts[i].treasury == 0
    ensures !(exists i :: 0 <= i < |c.towns| && c.At(c.towns[i].id) != {}) ==> r.setts == old(r.setts)
  {
    hide Residents, RollsOk, Total;
    var living := CountAll(c);
    r.ProcessAbandonment(living, pos);
    ghost var towns := c.towns;
    c.towns := seq(|c.towns|, i requires 0 <= i < |c.towns| && |r.hexSettled| == |c.towns| reads c, r =>
      c.towns[i].(settled := r.hexSettled[i]));
    UnsettledOk(c.people, c.agents, towns, c.towns);
    assert forall i :: 0 <= i < |living| ==> (living[i] > 0 <==> c.At(c.towns[i].id) != {});
  }

  lemma UnsettledOk(people: People, agents: seq<nat>, towns: seq<Town>, towns': seq<Town>)
    requires |towns| == |towns'| && forall i :: 0 <= i < |towns| ==> towns'[i] == towns[i].(settled := towns'[i].settled)
    ensures TownsOk(towns) ==> TownsOk(towns')
    ensures HomesOk(people, agents, towns) ==> HomesOk(people, agents, towns')
    ensures Covered(people, agents, towns) ==> Covered(people, agents, towns')
    ensures Counted(people, agents, towns) ==> Counted(people, agents, towns')
  {
    hide Residents;
    forall s | IsTown(towns, s) ensures IsTown(towns', s) {
      var i :| 0 <= i < |towns| && towns[i].id == s;
      assert towns'[i].id == s;
    }
  }

  // ----- Forgetting ghost settlements ----------------------------------------------------------------------

  function KeptTo(towns: seq<Town>, setts: seq<Settlement>, n: nat): seq<Settlement>
    requires n <= |towns| == |setts|
  {
    if n == 0 then [] else KeptTo(towns, setts, n - 1) + if Ghost(towns[n - 1]) then [] else [setts[n - 1]]
  }

  /** What the ghosts among the first n settlements hold. */
  ghost function LostTo(towns: seq<Town>, setts: seq<Settlement>, n: nat): nat
    requires n <= |towns| == |setts|
  {
    if n == 0 then 0 else LostTo(towns, setts, n - 1) + if Ghost(towns[n - 1]) then setts[n - 1].treasury else 0
  }

  lemma {:induction false} KeptTotal(towns: seq<Town>, setts: seq<Settlement>, n: nat)
    requires n <= |towns| == |setts|
    ensures Total(KeptTo(towns, setts, n), TreasuryOf) + LostTo(towns, setts, n) == SumTo(setts, n, TreasuryOf)
  {
    hide Total;
    if n == 0 {
      assert Total([], TreasuryOf) == 0 by { Nothing(); }
    } else {
      KeptTotal(towns, setts, n - 1);
      TotalAppend(KeptTo(towns, setts, n - 1), setts[n - 1], TreasuryOf);
      assert KeptTo(towns, setts, n - 1) + [] == KeptTo(towns, setts, n - 1);
    }
  }

  lemma Nothing()
    ensures Total([], TreasuryOf) == 0
  {
  }

  lemma {:induction false} KeptMirrors(towns: seq<Town>, setts: seq<Settlement>, n: nat)
    requires n <= |towns| == |setts| && forall i :: 0 <= i < |towns| ==> setts[i].population == towns[i].population
    ensures |KeptTo(towns, setts, n)| == |Inhabited(towns, n)|
    ensures forall i :: 0 <= i < |Inhabited(towns, n)| ==> KeptTo(towns, setts, n)[i].population == Inhabited(towns, n)[i].population
  {
    if n > 0 {
      KeptMirrors(towns, setts, n - 1);
    }
  }

  lemma {:induction false} NothingLost(towns: seq<Town>, setts: seq<Settlement>, n: nat)
    requires n <= |towns| == |setts| && forall i :: 0 <= i < |towns| && Ghost(towns[i]) ==> setts[i].treasury == 0
    ensures LostTo(towns, setts, n) == 0
  {
    if n > 0 {
      NothingLost(towns, setts, n - 1);
    }
  }

  lemma {:induction false} NothingKept(towns: seq<Town>, setts: seq<Settlement>, n: nat)
    requires n <= |towns| == |setts| && forall i :: 0 <= i < |towns| ==> Ghost(towns[i])
    ensures KeptTo(towns, setts, n) == []
  {
    if n > 0 {
      NothingKept(towns, setts, n - 1);
    }
  }

  /** Ghost settlements leave both views; what they hold is lost. */
  method Forget(c: Census, r: Abandonment.Registry)
    requires c.Valid() && c.Exact() && Mirrors(c.towns, r.setts, r.hexSettled)
    modifies c`lists, c`towns, r
    ensures c.Valid() && c.Exact() && Mirrors(c.towns, r.setts, r.hexSettled)
    ensures |old(c.towns)| == |old(r.setts)|
    ensures c.towns == Inhabited(old(c.towns), |old(c.towns)|)
    ensures r.setts == KeptTo(old(c.towns), old(r.setts), |old(c.towns)|)
    ensures Total(r.setts, TreasuryOf) + LostTo(old(c.towns), old(r.setts), |old(c.towns)|) == old(Total(r.setts, TreasuryOf))
  {
    hide Census.Valid, Census.Exact, Inhabited, Ghost, SumTo;
    var kept: seq<Settlement> := [];
    for k := 0 to |c.towns|
      invariant kept == KeptTo(c.towns, r.setts, k)
    {
      if !Ghost(c.towns[k]) { kept := kept + [r.setts[k]]; }
    }
    KeptTotal(c.towns, r.setts, |c.towns|);
    KeptMirrors(c.towns, r.setts, |c.towns|);
    c.CompactAbandoned();
    r.setts := kept;
    r.hexSettled := seq(|c.towns|, i requires 0 <= i < |c.towns| reads c => c.towns[i].settled);
  }

  /** What a settlement holds, given what each ID does. */
  function Purse(funds: nat -> nat): Town -> nat { (t: Town) => funds(t.id) }

  /** Abandonment and then forgetting, on exact counters: treasuries are conserved if anybody lives in a settlement,
      and if nobody does all of them are lost. Exactly the inhabited settlements are left. */
  method EndWeek(c: Census, r: Abandonment.Registry, pos: seq<Coord>)
    requires c.Valid() && c.Exact() && c.AllSettled() && Mirrors(c.towns, r.setts, r.hexSettled)
    requires |pos| == |c.towns| && Distinct(pos)
    modifies c`lists, c`towns, r
    ensures c.Valid() && c.Exact() && c.AllSettled() && Mirrors(c.towns, r.setts, r.hexSettled)
    ensures forall i :: 0 <= i < |c.towns| ==> c.At(c.towns[i].id) != {}
    ensures c.towns != [] <==> exists i :: 0 <= i < |old(c.towns)| && c.At(old(c.towns)[i].id) != {}
    ensures Total(r.setts, TreasuryOf) == if c.towns != [] then old(Total(r.setts, TreasuryOf)) else 0
  {
    hide Census.Valid, Census.Exact, Residents, Total, Inhabited, KeptTo, LostTo, Distinct, Ghost, TownsOk;
    AbandonEmpty(c, r, pos);
    GhostsAreUninhabited(c);
    IdsDiffer(c);
    ghost var towns, setts := c.towns, r.setts;
    StillThere(towns);
    if exists i :: 0 <= i < |towns| && !Ghost(towns[i]) {
      NothingLost(towns, setts, |towns|);
    } else {
      NothingKept(towns, setts, |towns|);
      Nothing();
    }
    Forget(c, r);
  }

  lemma IdsDiffer(c: Census)
    requires c.Valid()
    ensures TownsOk(c.towns)
  {
  }

  /** The week's end in its order: whatever came before, a recount, any passes in which nobody dies, abandonment and
      the forgetting of ghosts. Whatever each of the settlements holds by then and wherever it lies, treasuries are
      conserved if anybody lives in one; if nobody does, all of them are lost. */
  method Week(c: Census, before: seq<Op>, after: seq<Op>, funds: nat -> nat, place: nat -> Coord)
    returns (r: Abandonment.Registry, ghost towns: seq<Town>)
    requires c.Valid() && c.AllSettled() && NoDeaths(after) && forall a, b :: place(a) == place(b) ==> a == b
    modifies c
    ensures c.Valid() && c.Exact() && c.AllSettled() && Mirrors(c.towns, r.setts, r.hexSettled)
    ensures forall i :: 0 <= i < |c.towns| ==> c.At(c.towns[i].id) != {}
    ensures Total(r.setts, TreasuryOf) == if c.towns != [] then Total(towns, Purse(funds)) else 0
  {
    hide Census.Valid, Census.Exact, Census.AllSettled, Census.At, Purse, SumTo;
    RecountMends(before, after, |after|, c.Exact());
    var ops := before + [Recounted] + after;
    c.Run(ops);
    var pos := seq(|c.towns|, i requires 0 <= i < |c.towns| reads c => place(c.towns[i].id));
    var setts := seq(|c.towns|, i requires 0 <= i < |c.towns| reads c =>
      Settlement(funds(c.towns[i].id), 0.1, c.towns[i].population, None));
    r := new Abandonment.Registry(setts, seq(|c.towns|, i requires 0 <= i < |c.towns| reads c => c.towns[i].settled), map[]);
    Apart(c, pos, place);
    towns := c.towns;
    FundsAgree(towns, setts, funds, |towns|);
    EndWeek(c, r, pos);
  }

  lemma Apart(c: Census, pos: seq<Coord>, place: nat -> Coord)
    requires c.Valid() && |pos| == |c.towns| && forall a, b :: place(a) == place(b) ==> a == b
    requires forall i :: 0 <= i < |pos| ==> pos[i] == place(c.towns[i].id)
    ensures Distinct(pos)
  {
  }

  lemma {:induction false} FundsAgree(towns: seq<Town>, setts: seq<Settlement>, funds: nat -> nat, n: nat)
    requires n <= |towns| == |setts| && forall i :: 0 <= i < |towns| ==> setts[i].treasury == funds(towns[i].id)
    ensures SumTo(setts, n, TreasuryOf) == SumTo(towns, n, Purse(funds))
  {
    if n > 0 {
      FundsAgree(towns, setts, funds, n - 1);
    }
  }

  /** After abandonment exactly the settlements nobody lives in are ghosts. */
  lemma GhostsAreUninhabited(c: Census)
    requires c.Exact()
    requires forall i :: 0 <= i < |c.towns| ==> (c.towns[i].settled <==> c.At(c.towns[i].id) != {})
    ensures forall i :: 0 <= i < |c.towns| ==> (Ghost(c.towns[i]) <==> c.At(c.towns[i].id) == {})
  {
    hide Residents;
  }

  lemma StillThere(towns: seq<Town>)
    requires TownsOk(towns)
    ensures var rest := Inhabited(towns, |towns|);
            && (forall i :: 0 <= i < |rest| ==> rest[i] in towns && !Ghost(rest[i]))
            && (rest != [] <==> exists i :: 0 <= i < |towns| && !Ghost(towns[i]))
  {
    hide Inhabited, Ghost;
    InhabitedMembers(towns, |towns|);
    assert towns[..|towns|] == towns;
    var rest := Inhabited(towns, |towns|);
    forall i | 0 <= i < |rest| ensures rest[i] in towns && !Ghost(rest[i]) { assert rest[i] in rest; }
    if i :| 0 <= i < |towns| && !Ghost(towns[i]) {
      assert towns[i] in rest;
    }
    if rest != [] {
      assert rest[0] in rest;
    }
  }
}
