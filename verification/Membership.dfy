/** Who lives where: the per-settlement agent lists and population counters of internal/engine are redundant
    copies of each agent's home, kept in step by rebuilding, compaction, founding and migration. */
module Membership {
  import opened Accounts
  import opened Rosters
  import opened Phi

  datatype Relationship = Relationship(target: nat, sentiment: real)

  datatype Person = Person(alive: bool, home: Option<nat>, relationships: seq<Relationship>)

  /** `settled` says whether the hex still refers to the settlement. */
  datatype Town = Town(id: nat, population: nat, settled: bool)

  type People = map<nat, Person>

  type Lists = map<nat, seq<nat>>

  function ListOf(lists: Lists, s: nat): seq<nat> {
    if s in lists then lists[s] else []
  }

  predicate LivesIn(people: People, a: nat, s: nat) {
    a in people && people[a].alive && people[a].home == Some(s)
  }

  /** The truth the lists and counters are copies of. */
  ghost function Residents(people: People, agents: seq<nat>, s: nat): set<nat> {
    set a | a in agents && LivesIn(people, a, s)
  }

  /** The list of s holds every resident of s once, and nobody whose home is elsewhere. */
  ghost predicate RollOk(people: People, agents: seq<nat>, list: seq<nat>, s: nat) {
    && Distinct(list)
    && (forall a :: a in list ==> a in agents && a in people && people[a].home == Some(s))
    && (forall a :: a in Residents(people, agents, s) ==> a in list)
  }

  ghost predicate RollsOk(people: People, agents: seq<nat>, lists: Lists) {
    forall s: nat :: RollOk(people, agents, ListOf(lists, s), s)
  }

  ghost predicate IsTown(towns: seq<Town>, s: nat) {
    exists i :: 0 <= i < |towns| && towns[i].id == s
  }

  ghost predicate TownsOk(towns: seq<Town>) {
    forall i, j :: 0 <= i < j < |towns| ==> towns[i].id != towns[j].id
  }

  ghost predicate HomesOk(people: People, agents: seq<nat>, towns: seq<Town>) {
    forall a, s: nat :: a in agents && LivesIn(people, a, s) ==> IsTown(towns, s)
  }

  ghost predicate PeopleOk(people: People, agents: seq<nat>, index: set<nat>) {
    && Distinct(agents)
    && (forall a :: a in agents ==> a in people)
    && index == Members(agents)
  }

  /** No counter is below the number of residents. Deaths leave counters too high until the next recount. */
  ghost predicate Covered(people: People, agents: seq<nat>, towns: seq<Town>) {
    forall i :: 0 <= i < |towns| ==> towns[i].population >= |Residents(people, agents, towns[i].id)|
  }

  ghost predicate Counted(people: People, agents: seq<nat>, towns: seq<Town>) {
    forall i :: 0 <= i < |towns| ==> towns[i].population == |Residents(people, agents, towns[i].id)|
  }

  /** What the partition means for one agent: on the list of its home, once, and on no other list. */
  lemma OnOneList(people: People, agents: seq<nat>, lists: Lists, a: nat, s: nat)
    requires RollsOk(people, agents, lists) && a in agents && LivesIn(people, a, s)
    ensures multiset(ListOf(lists, s))[a] == 1
    ensures forall t: nat :: t != s ==> a !in ListOf(lists, t)
  {
    var list := ListOf(lists, s);
    assert RollOk(people, agents, list, s);
    assert a in Residents(people, agents, s);
    OccursOnce(list, a);
    forall t: nat | t != s ensures a !in ListOf(lists, t) {
      assert RollOk(people, agents, ListOf(lists, t), t);
    }
  }

  // ----- Rebuilding and counting ---------------------------------------------------------------------

  /** The residents of s among the first n agents, in agent order. */
  ghost function Roll(people: People, agents: seq<nat>, n: nat, s: nat): seq<nat>
    requires n <= |agents|
  {
    if n == 0 then []
    else Roll(people, agents, n - 1, s) + if LivesIn(people, agents[n - 1], s) then [agents[n - 1]] else []
  }

  lemma {:induction false} RollMembers(people: People, agents: seq<nat>, n: nat, s: nat)
    requires n <= |agents| && Distinct(agents)
    ensures Distinct(Roll(people, agents, n, s))
    ensures forall a :: a in Roll(people, agents, n, s) <==> a in agents[..n] && LivesIn(people, a, s)
  {
    if n > 0 {
      RollMembers(people, agents, n - 1, s);
      assert agents[..n] == agents[..n - 1] + [agents[n - 1]];
    }
  }

  lemma RollIsOk(people: People, agents: seq<nat>, s: nat)
    requires Distinct(agents)
    ensures RollOk(people, agents, Roll(people, agents, |agents|, s), s)
  {
    RollMembers(people, agents, |agents|, s);
    assert agents[..|agents|] == agents;
  }

  ghost function LivingOf(people: People, list: seq<nat>): set<nat> {
    set a | a in list && a in people && people[a].alive
  }

  lemma LivingAppend(people: People, list: seq<nat>, k: nat)
    requires k < |list| && Distinct(list) && list[k] in people
    ensures |LivingOf(people, list[..k + 1])| == |LivingOf(people, list[..k])| + if people[list[k]].alive then 1 else 0
  {
    var was := LivingOf(people, list[..k]);
    assert list[..k + 1] == list[..k] + [list[k]];
    assert list[k] !in list[..k];
    assert LivingOf(people, list[..k + 1]) == if people[list[k]].alive then was + {list[k]} else was;
  }

  method CountLiving(people: People, list: seq<nat>, ghost agents: seq<nat>, ghost s: nat) returns (n: nat)
    requires RollOk(people, agents, list, s)
    ensures n == |Residents(people, agents, s)|
  {
    n := 0;
    for k := 0 to |list|
      invariant n == |LivingOf(people, list[..k])|
    {
      LivingAppend(people, list, k);
      if people[list[k]].alive { n := n + 1; }
    }
    assert list[..|list|] == list;
    assert LivingOf(people, list) == Residents(people, agents, s);
  }

  lemma RollStep(people: People, agents: seq<nat>, k: nat, s: nat)
    requires k <= |agents|
    ensures k == 0 ==> Roll(people, agents, k, s) == []
    ensures k < |agents| ==>
              Roll(people, agents, k + 1, s)
              == Roll(people, agents, k, s) + if LivesIn(people, agents[k], s) then [agents[k]] else []
  {
  }

  method BuildRolls(people: People, agents: seq<nat>) returns (rolls: Lists)
    requires forall a :: a in agents ==> a in people
    ensures forall s: nat :: ListOf(rolls, s) == Roll(people, agents, |agents|, s)
  {
    hide Roll;
    rolls := map[];
    forall s: nat ensures Roll(people, agents, 0, s) == [] { RollStep(people, agents, 0, s); }
    for k := 0 to |agents|
      invariant forall s: nat :: ListOf(rolls, s) == Roll(people, agents, k, s)
    {
      var a := agents[k];
      forall s: nat
        ensures Roll(people, agents, k + 1, s) == Roll(people, agents, k, s) + if LivesIn(people, a, s) then [a] else []
      {
        RollStep(people, agents, k, s);
      }
      if people[a].alive {
        match people[a].home
        case None =>
        case Some(s) => rolls := rolls[s := ListOf(rolls, s) + [a]];
      }
    }
  }

  // ----- Moving house ----------------------------------------------------------------------------------

  function Rehomed(people: People, movers: seq<nat>, to: nat): People {
    map a | a in people :: if a in movers then people[a].(home := Some(to)) else people[a]
  }

  /** Residents of `from` who are about to leave. */
  ghost predicate Leavers(people: People, agents: seq<nat>, movers: seq<nat>, from: nat) {
    Distinct(movers) && forall a :: a in movers ==> a in Residents(people, agents, from)
  }

  lemma MovedResidents(people: People, agents: seq<nat>, movers: seq<nat>, from: nat, to: nat)
    requires Leavers(people, agents, movers, from) && from != to
    ensures var after := Rehomed(people, movers, to);
            && Residents(after, agents, from) == Residents(people, agents, from) - Members(movers)
            && Residents(after, agents, to) == Residents(people, agents, to) + Members(movers)
            && |Residents(after, agents, from)| == |Residents(people, agents, from)| - |movers|
            && |Residents(after, agents, to)| == |Residents(people, agents, to)| + |movers|
    ensures forall s :: s != from && s != to ==>
              Residents(Rehomed(people, movers, to), agents, s) == Residents(people, agents, s)
  {
    DistinctSize(movers);
    var after := Rehomed(people, movers, to);
    assert Residents(after, agents, from) == Residents(people, agents, from) - Members(movers);
    assert Residents(after, agents, to) == Residents(people, agents, to) + Members(movers);
    assert Members(movers) <= Residents(people, agents, from);
  }

  lemma LeftRoll(people: People, agents: seq<nat>, list: seq<nat>, movers: seq<nat>, from: nat, to: nat)
    requires Leavers(people, agents, movers, from) && from != to && RollOk(people, agents, list, from)
    ensures RollOk(Rehomed(people, movers, to), agents, Keep(list, movers), from)
  {
    hide Keep, Distinct;
    KeepMembers(list, movers);
    MovedResidents(people, agents, movers, from, to);
  }

  lemma JoinedRoll(people: People, agents: seq<nat>, list: seq<nat>, movers: seq<nat>, from: nat, to: nat)
    requires Leavers(people, agents, movers, from) && from != to && RollOk(people, agents, list, to)
    ensures RollOk(Rehomed(people, movers, to), agents, list + movers, to)
  {
    MovedResidents(people, agents, movers, from, to);
    DistinctConcat(list, movers);
  }

  lemma OtherRoll(people: People, agents: seq<nat>, list: seq<nat>, movers: seq<nat>, from: nat, to: nat, s: nat)
    requires Leavers(people, agents, movers, from) && s != from && s != to && RollOk(people, agents, list, s)
    ensures RollOk(Rehomed(people, movers, to), agents, list, s)
  {
  }

  lemma MovedRolls(people: People, agents: seq<nat>, lists: Lists, movers: seq<nat>, from: nat, to: nat, hosts: seq<nat>)
    requires Leavers(people, agents, movers, from) && from != to && RollsOk(people, agents, lists)
    requires RollOk(people, agents, hosts, to)
    ensures RollsOk(Rehomed(people, movers, to), agents,
                    lists[from := Keep(ListOf(lists, from), movers)][to := hosts + movers])
  {
    hide RollOk, Leavers, Keep, Rehomed;
    var lists' := lists[from := Keep(ListOf(lists, from), movers)][to := hosts + movers];
    forall s: nat ensures RollOk(Rehomed(people, movers, to), agents, ListOf(lists', s), s) {
      if s == to {
        JoinedRoll(people, agents, hosts, movers, from, to);
      } else if s == from {
        LeftRoll(people, agents, ListOf(lists, s), movers, from, to);
      } else {
        OtherRoll(people, agents, ListOf(lists, s), movers, from, to, s);
      }
    }
  }

  /** One loop moves everybody's home. */
  method Rehome(people: People, movers: seq<nat>, to: nat) returns (after: People)
    requires forall a :: a in movers ==> a in people
    ensures after == Rehomed(people, movers, to) && after.Keys == people.Keys
  {
    after := people;
    for k := 0 to |movers|
      invariant after == Rehomed(people, movers[..k], to)
    {
      assert movers[..k + 1] == movers[..k] + [movers[k]];
      after := after[movers[k] := after[movers[k]].(home := Some(to))];
    }
    assert movers[..|movers|] == movers;
  }

  lemma MovedCounts(people: People, agents: seq<nat>, towns: seq<Town>, movers: seq<nat>, i: nat, j: nat, towns': seq<Town>)
    requires TownsOk(towns) && i < |towns| && j < |towns| && i != j && Covered(people, agents, towns)
    requires Leavers(people, agents, movers, towns[i].id)
    requires |movers| <= towns[i].population
    requires towns' == towns[i := towns[i].(population := towns[i].population - |movers|)]
                            [j := towns[j].(population := towns[j].population + |movers|)]
    ensures Covered(Rehomed(people, movers, towns[j].id), agents, towns')
    ensures Counted(people, agents, towns) ==> Counted(Rehomed(people, movers, towns[j].id), agents, towns')
  {
    MovedResidents(people, agents, movers, towns[i].id, towns[j].id);
    hide Residents, Leavers;
  }

  // ----- Pruning relationships -------------------------------------------------------------------------

  function Pruned(rels: seq<Relationship>, index: set<nat>): seq<Relationship> {
    if rels == [] then []
    else
      var n := |rels| - 1;
      Pruned(rels[..n], index) + if rels[n].target in index then [rels[n]] else []
  }

  lemma {:induction false} PrunedMembers(rels: seq<Relationship>, index: set<nat>)
    ensures forall r :: r in Pruned(rels, index) <==> r in rels && r.target in index
  {
    if rels != [] {
      var n := |rels| - 1;
      PrunedMembers(rels[..n], index);
      assert rels == rels[..n] + [rels[n]];
    }
  }

  method Prune(rels: seq<Relationship>, index: set<nat>) returns (kept: seq<Relationship>)
    ensures kept == Pruned(rels, index)
  {
    kept := [];
    for k := 0 to |rels|
      invariant kept == Pruned(rels[..k], index)
    {
      assert rels[..k + 1][..k] == rels[..k];
      if rels[k].target in index { kept := kept + [rels[k]]; }
    }
    assert rels[..|rels|] == rels;
  }

  function PrunedAll(people: People, agents: seq<nat>, index: set<nat>): People {
    map a | a in people ::
      if a in agents then people[a].(relationships := Pruned(people[a].relationships, index)) else people[a]
  }

  method PruneAll(people: People, agents: seq<nat>, index: set<nat>) returns (after: People)
    requires Distinct(agents) && forall a :: a in agents ==> a in people
    ensures after == PrunedAll(people, agents, index) && after.Keys == people.Keys
  {
    after := people;
    for k := 0 to |agents|
      invariant after == PrunedAll(people, agents[..k], index)
    {
      assert agents[..k + 1] == agents[..k] + [agents[k]];
      assert agents[k] !in agents[..k];
      var kept := Prune(people[agents[k]].relationships, index);
      after := after[agents[k] := after[agents[k]].(relationships := kept)];
    }
    assert agents[..|agents|] == agents;
  }

  // ----- Compaction --------------------------------------------------------------------------------------

  /** The living among the first n agents, in agent order. */
  function Survivors(people: People, agents: seq<nat>, n: nat): seq<nat>
    requires n <= |agents|
  {
    if n == 0 then []
    else
      Survivors(people, agents, n - 1) +
      if agents[n - 1] in people && people[agents[n - 1]].alive then [agents[n - 1]] else []
  }

  lemma {:induction false} SurvivorsMembers(people: People, agents: seq<nat>, n: nat)
    requires n <= |agents| && Distinct(agents)
    ensures Distinct(Survivors(people, agents, n))
    ensures forall a :: a in Survivors(people, agents, n) <==> a in agents[..n] && a in people && people[a].alive
  {
    if n > 0 {
      SurvivorsMembers(people, agents, n - 1);
      assert agents[..n] == agents[..n - 1] + [agents[n - 1]];
    }
  }

  method KeepLiving(people: People, agents: seq<nat>) returns (alive: seq<nat>, removed: nat)
    requires forall a :: a in agents ==> a in people
    ensures alive == Survivors(people, agents, |agents|)
    ensures removed == 0 <==> forall a :: a in agents ==> people[a].alive
  {
    alive, removed := [], 0;
    for k := 0 to |agents|
      invariant alive == Survivors(people, agents, k)
      invariant removed == 0 <==> forall j :: 0 <= j < k ==> people[agents[j]].alive
    {
      if people[agents[k]].alive { alive := alive + [agents[k]]; } else { removed := removed + 1; }
    }
  }

  method IndexOf(agents: seq<nat>) returns (index: set<nat>)
    ensures index == Members(agents)
  {
    index := {};
    for k := 0 to |agents|
      invariant index == Members(agents[..k])
    {
      index := index + {agents[k]};
      assert agents[..k + 1] == agents[..k] + [agents[k]];
    }
    assert agents[..|agents|] == agents;
  }

  lemma SurvivorsOk(people: People, agents: seq<nat>)
    requires Distinct(agents)
    ensures var alive := Survivors(people, agents, |agents|);
            Distinct(alive) && forall a :: a in alive ==> a in people
  {
    SurvivorsMembers(people, agents, |agents|);
  }

  /** Neither dropping the dead nor pruning relationships moves anybody. */
  lemma SurvivorsResidents(people: People, agents: seq<nat>, index: set<nat>, s: nat)
    requires Distinct(agents)
    ensures var alive := Survivors(people, agents, |agents|);
            Residents(PrunedAll(people, alive, index), alive, s) == Residents(people, agents, s)
  {
    SurvivorsMembers(people, agents, |agents|);
    assert agents[..|agents|] == agents;
    hide Pruned, Survivors;
    var alive := Survivors(people, agents, |agents|);
    var after := PrunedAll(people, alive, index);
    assert forall a :: a in people ==> LivesIn(after, a, s) == LivesIn(people, a, s);
  }

  /** After a compaction the relationships of the living are exactly those with the living. */
  lemma NoStaleTargets(people: People, agents: seq<nat>, a: nat, r: Relationship)
    requires Distinct(agents)
    ensures var alive := Survivors(people, agents, |agents|);
            var after := PrunedAll(people, alive, Members(alive));
            a in alive ==>
              && a in after
              && (r in after[a].relationships <==>
                  r in people[a].relationships && r.target in agents && r.target in people && people[r.target].alive)
  {
    hide Survivors;
    SurvivorsMembers(people, agents, |agents|);
    assert agents[..|agents|] == agents;
    if a in Survivors(people, agents, |agents|) {
      PrunedMembers(people[a].relationships, Members(Survivors(people, agents, |agents|)));
    }
  }

  // ----- Founding ----------------------------------------------------------------------------------------

  lemma NobodyHome(people: People, agents: seq<nat>, towns: seq<Town>, s: nat)
    requires HomesOk(people, agents, towns) && !IsTown(towns, s)
    ensures Residents(people, agents, s) == {} && RollOk(people, agents, [], s)
  {
    assert forall a :: a in agents ==> !LivesIn(people, a, s);
  }

  /** A settlement with a new ID and no residents changes nothing for the others. */
  lemma NewTown(people: People, agents: seq<nat>, towns: seq<Town>, id: nat)
    requires TownsOk(towns) && HomesOk(people, agents, towns) && Covered(people, agents, towns) && !IsTown(towns, id)
    ensures var towns' := towns + [Town(id, 0, true)];
            && TownsOk(towns') && HomesOk(people, agents, towns') && Covered(people, agents, towns')
            && (Counted(people, agents, towns) ==> Counted(people, agents, towns'))
  {
    NobodyHome(people, agents, towns, id);
    hide Residents;
    var towns' := towns + [Town(id, 0, true)];
    forall s | IsTown(towns, s) ensures IsTown(towns', s) {
      var i :| 0 <= i < |towns| && towns[i].id == s;
      assert towns'[i].id == s;
    }
    assert forall i :: 0 <= i < |towns| ==> IsTown(towns, towns[i].id);
  }

  lemma MovedHomes(people: People, agents: seq<nat>, towns: seq<Town>, movers: seq<nat>, to: nat)
    requires HomesOk(people, agents, towns) && IsTown(towns, to)
    ensures HomesOk(Rehomed(people, movers, to), agents, towns)
  {
    hide IsTown;
  }

  ghost predicate SameTowns(towns: seq<Town>, towns': seq<Town>) {
    |towns'| == |towns| && forall i :: 0 <= i < |towns| ==> towns'[i].(population := 0) == towns[i].(population := 0)
  }

  lemma SameTownsOk(people: People, agents: seq<nat>, towns: seq<Town>, towns': seq<Town>)
    requires SameTowns(towns, towns')
    ensures TownsOk(towns) == TownsOk(towns')
    ensures HomesOk(people, agents, towns) == HomesOk(people, agents, towns')
  {
    assert forall i :: 0 <= i < |towns| ==> towns'[i].(population := 0).id == towns[i].(population := 0).id;
    forall s ensures IsTown(towns, s) == IsTown(towns', s) {
      if IsTown(towns, s) {
        var i :| 0 <= i < |towns| && towns[i].id == s;
        assert towns'[i].id == s;
      }
      if IsTown(towns', s) {
        var i :| 0 <= i < |towns'| && towns'[i].id == s;
        assert towns[i].id == s;
      }
    }
  }

  class Census {
    var people: People
    var agents: seq<nat>
    var index: set<nat>
    var lists: Lists
    var towns: seq<Town>

    /** What holds even while homes are being changed. */
    ghost predicate Sound()
      reads this
    {
      PeopleOk(people, agents, index) && TownsOk(towns) && HomesOk(people, agents, towns)
    }

    ghost predicate Valid()
      reads this
    {
      Sound() && RollsOk(people, agents, lists) && Covered(people, agents, towns)
    }

    ghost predicate Exact()
      reads this
    {
      Counted(people, agents, towns)
    }

    /** Every settlement still has its hex. */
    ghost predicate AllSettled()
      reads this
    {
      forall i :: 0 <= i < |towns| ==> towns[i].settled
    }

    ghost function At(s: nat): set<nat>
      reads this
    {
      Residents(people, agents, s)
    }

    /** A start from the agents and settlements alone: the index, the lists and the counters are derived. */
    constructor (people: People, agents: seq<nat>, towns: seq<Town>)
      requires Distinct(agents) && (forall a :: a in agents ==> a in people)
      requires TownsOk(towns) && HomesOk(people, agents, towns)
      ensures Valid() && Exact() && this.people == people && this.agents == agents && SameTowns(towns, this.towns)
      ensures forall s: nat :: ListOf(lists, s) == Roll(people, agents, |agents|, s)
    {
      var all := IndexOf(agents);
      this.people, this.agents, this.towns, index, lists := people, agents, towns, all, map[];
      new;
      Rebuild();
    }

    method Recount()
      requires Sound() && RollsOk(people, agents, lists)
      modifies `towns
      ensures Valid() && Exact() && SameTowns(old(towns), towns)
    {
      hide Residents, RollOk, HomesOk;
      for i := 0 to |towns|
        invariant SameTowns(old(towns), towns)
        invariant forall j :: 0 <= j < i ==> towns[j].population == |Residents(people, agents, towns[j].id)|
      {
        var id := towns[i].id;
        assert RollOk(people, agents, ListOf(lists, id), id);
        var n := CountLiving(people, ListOf(lists, id), agents, id);
        towns := towns[i := towns[i].(population := n)];
      }
      SameTownsOk(people, agents, old(towns), towns);
    }

    method Rebuild()
      requires Sound()
      modifies `lists, `towns
      ensures Valid() && Exact() && SameTowns(old(towns), towns)
      ensures forall s: nat :: ListOf(lists, s) == Roll(people, agents, |agents|, s)
    {
      hide HomesOk, TownsOk, RollOk, Residents, Roll, ListOf;
      lists := BuildRolls(people, agents);
      forall s: nat ensures RollOk(people, agents, ListOf(lists, s), s) {
        RollIsOk(people, agents, s);
      }
      Recount();
    }

    method CompactDead()
      requires Valid()
      modifies this
      ensures Valid() && SameTowns(old(towns), towns)
      ensures forall s :: At(s) == old(At(s))
      ensures if forall a :: a in old(agents) ==> old(people)[a].alive
              then people == old(people) && agents == old(agents) && index == old(index) && lists == old(lists) && towns == old(towns)
              else && agents == Survivors(old(people), old(agents), |old(agents)|)
                   && Exact()
                   && people == PrunedAll(old(people), agents, index)
                   && forall s: nat :: ListOf(lists, s) == Roll(people, agents, |agents|, s)
    {
      hide Residents, RollOk, HomesOk, TownsOk, Roll, Survivors, PrunedAll, Members, Distinct;
      var alive, removed := KeepLiving(people, agents);
      if removed == 0 {
        return;
      }
      SurvivorsOk(people, agents);
      var newIndex := IndexOf(alive);
      var after := PruneAll(people, alive, newIndex);
      forall s ensures Residents(after, alive, s) == Residents(people, agents, s) {
        SurvivorsResidents(people, agents, newIndex, s);
      }
      SameHomes(people, agents, after, alive, towns);
      people, agents, index := after, alive, newIndex;
      Rebuild();
    }

    /** Overflow to an existing settlement. */
    method CascadeMigrate(i: nat, j: nat, emigrants: seq<nat>)
      requires Valid() && i < |towns| && j < |towns| && i != j && Leavers(people, agents, emigrants, towns[i].id)
      modifies `people, `lists, `towns
      ensures Valid() && SameTowns(old(towns), towns) && (old(Exact()) ==> Exact())
      ensures people == Rehomed(old(people), emigrants, towns[j].id)
      ensures At(towns[i].id) == old(At(towns[i].id)) - Members(emigrants)
      ensures At(towns[j].id) == old(At(towns[j].id)) + Members(emigrants)
      ensures towns[i].population == old(towns)[i].population - |emigrants|
      ensures towns[j].population == old(towns)[j].population + |emigrants|
      ensures forall k :: 0 <= k < |towns| && k != i && k != j ==> towns[k] == old(towns)[k]
      ensures old(AllSettled()) ==> AllSettled()
    {
      hide Residents, RollOk, HomesOk, Rehomed, Leavers, RollsOk, TownsOk, Covered, Counted, Keep;
      var from, to := towns[i].id, towns[j].id;
      EnoughCounted(people, agents, towns, emigrants, i);
      LeaversKnown(people, agents, emigrants, from);
      MovedOk(people, agents, lists, towns, emigrants, i, j);
      people := Rehome(people, emigrants, to);
      var remaining := Without(ListOf(lists, from), emigrants);
      lists := lists[from := remaining];
      lists := lists[to := ListOf(lists, to) + emigrants];
      towns := towns[i := towns[i].(population := towns[i].population - |emigrants|)];
      towns := towns[j := towns[j].(population := towns[j].population + |emigrants|)];
    }

    /** Founding a daughter settlement under a new ID. */
    method FoundSettlement(i: nat, emigrants: seq<nat>) returns (id: nat)
      requires Valid() && i < |towns| && Leavers(people, agents, emigrants, towns[i].id)
      modifies `people, `lists, `towns
      ensures Valid() && (old(Exact()) ==> Exact())
      ensures !IsTown(old(towns), id) && people == Rehomed(old(people), emigrants, id)
      ensures |emigrants| <= old(towns)[i].population
      ensures towns == old(towns)[i := old(towns)[i].(population := old(towns)[i].population - |emigrants|)]
                       + [Town(id, |emigrants|, true)]
      ensures At(towns[i].id) == old(At(towns[i].id)) - Members(emigrants)
      ensures At(id) == Members(emigrants)
      ensures old(AllSettled()) ==> AllSettled()
    {
      hide Residents, RollOk, HomesOk, Rehomed, Leavers, RollsOk, TownsOk, Covered, Counted, Keep;
      var from, maxId := towns[i].id, 0;
      for k := 0 to |towns|
        invariant forall j :: 0 <= j < k ==> towns[j].id <= maxId
      {
        if towns[k].id > maxId { maxId := towns[k].id; }
      }
      id := maxId + 1;
      EnoughCounted(people, agents, towns, emigrants, i);
      LeaversKnown(people, agents, emigrants, from);
      FoundedOk(people, agents, lists, towns, emigrants, i, id);
      towns := towns + [Town(id, |emigrants|, true)];
      people := Rehome(people, emigrants, id);
      lists := lists[id := emigrants];
      towns := towns[i := towns[i].(population := towns[i].population - |emigrants|)];
      assert towns == Shifted(old(towns) + [Town(id, 0, true)], |emigrants|, i, |old(towns)|);
      var remaining := Without(ListOf(lists, from), emigrants);
      lists := lists[from := remaining];
    }

    /** A quarter or so of an overfull settlement leaves, if it is large enough and has somewhere to go. */
    method Overmass(i: nat, eligible: set<nat>, site: bool, target: Option<nat>)
      returns (ghost emigrants: seq<nat>, ghost to: nat)
      requires Valid() && i < |towns| && (target.Some? ==> target.value < |towns| && target.value != i)
      modifies `people, `lists, `towns
      ensures Valid() && (old(Exact()) ==> Exact())
      ensures (old(|At(towns[i].id)|) < 106 || (!site && target.None?)) ==>
                people == old(people) && lists == old(lists) && towns == old(towns)
      ensures old(|At(towns[i].id)|) >= 106 && (site || target.Some?) ==>
                && var from, list := old(towns)[i].id, old(ListOf(lists, towns[i].id));
                   emigrants == Emigrants(old(people), list, eligible, old(|At(towns[i].id)|))
                   && people == Rehomed(old(people), emigrants, to)
                   && At(from) == old(At(towns[i].id)) - Members(emigrants)
                   && (if site then !IsTown(old(towns), to) && At(to) == Members(emigrants)
                       else to == old(towns)[target.value].id && At(to) == old(At(towns[target.value].id)) + Members(emigrants))
      ensures OnlyEligible(old(people), people, eligible)
      ensures old(AllSettled()) ==> AllSettled()
    {
      hide Residents, RollOk, HomesOk, Leavers, TownsOk, Covered, Counted, Fit, RollsOk, Members, Rehomed, IsTown,
           AllSettled, FirstOf;
      emigrants, to := [], 0;
      var from := towns[i].id;
      RollAt(people, agents, lists, from);
      var living := CountLiving(people, ListOf(lists, from), agents, from);
      if living < 20 { return; }
      var count := Trunc(living as real * AGNOSIS);
      if count < 25 { return; }
      var chosen := SelectEmigrants(people, ListOf(lists, from), eligible, count, agents, from);
      emigrants := chosen;
      ghost var were := people;
      forall id: nat ensures OnlyEligible(were, Rehomed(were, chosen, id), eligible) { RehomedOnly(were, chosen, id, eligible); }
      if site {
        var id := FoundSettlement(i, chosen);
        to := id;
      } else if target.Some? {
        to := towns[target.value].id;
        CascadeMigrate(i, target.value, chosen);
      }
    }

    /** A child or refugee under a new ID joins a settlement. */
    method AddAgent(a: nat, i: nat)
      requires Valid() && a !in people && i < |towns|
      modifies this
      ensures Valid() && (old(Exact()) ==> Exact()) && SameTowns(old(towns), towns)
      ensures At(towns[i].id) == old(At(towns[i].id)) + {a} && agents == old(agents) + [a]
      ensures forall s :: s != towns[i].id ==> At(s) == old(At(s))
    {
      hide Residents, RollOk, HomesOk, RollsOk, TownsOk, Covered, Counted, Distinct;
      var s := towns[i].id;
      BornOk(people, agents, lists, towns, a, i);
      people := people[a := Person(true, Some(s), [])];
      agents, index := agents + [a], index + {a};
      lists := lists[s := ListOf(lists, s) + [a]];
      towns := towns[i := towns[i].(population := towns[i].population + 1)];
    }

    /** A death takes effect in place; lists and counters are left for later. */
    method Die(a: nat)
      requires Valid() && a in people
      modifies `people
      ensures Valid() && people == old(people)[a := old(people)[a].(alive := false)]
      ensures forall s :: At(s) == old(At(s)) - {a}
    {
      hide RollOk, Residents, HomesOk;
      DiedOk(people, agents, lists, towns, a);
      people := people[a := people[a].(alive := false)];
    }

    /** Migration passes change homes one by one and rebuild at the end. */
    method Resettle(moves: seq<(nat, nat)>)
      requires Valid() && forall k :: 0 <= k < |moves| ==> moves[k].0 in people && moves[k].1 < |towns|
      modifies `people, `lists, `towns
      ensures Valid() && (old(Exact()) || moves != [] ==> Exact()) && SameTowns(old(towns), towns)
      ensures people == Relocated(old(people), old(towns), moves, |moves|)
    {
      hide RollsOk, Covered, TownsOk, HomesOk;
      if moves == [] { return; }
      for k := 0 to |moves|
        invariant Sound() && people.Keys == old(people.Keys) && towns == old(towns)
        invariant people == Relocated(old(people), old(towns), moves, k)
      {
        var (a, i) := moves[k];
        MovedHome(people, agents, towns, a, towns[i].id);
        people := people[a := people[a].(home := Some(towns[i].id))];
      }
      Rebuild();
    }

    /** Ghost settlements are forgotten. Nobody lives in one. */
    method CompactAbandoned()
      requires Valid()
      modifies `lists, `towns
      ensures Valid() && (old(Exact()) ==> Exact())
      ensures towns == Inhabited(old(towns), |old(towns)|) && (old(AllSettled()) ==> AllSettled())
      ensures forall s: nat :: ListOf(lists, s) == if IsTown(old(towns), s) && !IsTown(towns, s) then [] else old(ListOf(lists, s))
    {
      hide Residents, RollOk, HomesOk, Covered, Counted;
      var active, kept := [], lists;
      for k := 0 to |towns|
        invariant active == Inhabited(towns, k)
        invariant kept == DropGhosts(lists, towns, k)
      {
        if towns[k].population == 0 && !towns[k].settled {
          kept := kept - {towns[k].id};
        } else {
          active := active + [towns[k]];
        }
      }
      InhabitedOk(people, agents, lists, towns);
      if AllSettled() { InhabitedSettled(towns); }
      lists, towns := kept, active;
    }

    /** One operation. A pass whose inputs do not fit the current state does not happen. */
    method Step(op: Op)
      requires Valid()
      modifies this
      ensures Valid() && ((old(Exact()) && !op.Died?) || op.Recounted? ==> Exact()) && (old(AllSettled()) ==> AllSettled())
    {
      hide Sound, RollsOk, Covered, Residents, Counted;
      match op
      case Born(a, i) => if a !in people && i < |towns| { AddAgent(a, i); }
      case Died(a) => if a in people { Die(a); }
      case Moved(moves) =>
        if forall k :: 0 <= k < |moves| ==> moves[k].0 in people && moves[k].1 < |towns| { Resettle(moves); }
      case Recounted => Recount();
      case Compacted => CompactDead();
      case Forgotten => CompactAbandoned();
      case Overfull(i, eligible, site, target) =>
        if i < |towns| && (target.Some? ==> target.value < |towns| && target.value != i) {
          ghost var who, to := Overmass(i, eligible, site, target);
        }
    }

    /** On every run the lists stay a partition of the living by home, no counter falls below the residents it
        counts, and every counter is exact whenever no death came after the last recount. */
    method Run(ops: seq<Op>)
      requires Valid()
      modifies this
      ensures Valid() && (Tally(ops, |ops|, old(Exact())) ==> Exact()) && (old(AllSettled()) ==> AllSettled())
    {
      hide Valid, Exact, AllSettled;
      for k := 0 to |ops|
        invariant Valid() && (Tally(ops, k, old(Exact())) ==> Exact()) && (old(AllSettled()) ==> AllSettled())
      {
        Step(ops[k]);
      }
    }
  }

  datatype Op =
    | Born(a: nat, i: nat) | Died(a: nat) | Moved(moves: seq<(nat, nat)>) | Recounted | Compacted | Forgotten
    | Overfull(i: nat, eligible: set<nat>, site: bool, target: Option<nat>)

  /** Whether the counters are exact after n operations: a death spoils them, a recount mends them. */
  ghost predicate Tally(ops: seq<Op>, n: nat, atFirst: bool)
    requires n <= |ops|
  {
    if n == 0 then atFirst
    else !ops[n - 1].Died? && (ops[n - 1].Recounted? || Tally(ops, n - 1, atFirst))
  }

  // ----- Choosing emigrants ------------------------------------------------------------------------------

  /** The living eligible among the first n of the list. */
  function Fit(people: People, list: seq<nat>, n: nat, eligible: set<nat>): seq<nat>
    requires n <= |list|
  {
    if n == 0 then []
    else
      Fit(people, list, n - 1, eligible) +
      if list[n - 1] in people && people[list[n - 1]].alive && list[n - 1] in eligible then [list[n - 1]] else []
  }

  lemma {:induction false} FitMembers(people: People, list: seq<nat>, n: nat, eligible: set<nat>)
    requires n <= |list| && Distinct(list)
    ensures Distinct(Fit(people, list, n, eligible))
    ensures forall a :: a in Fit(people, list, n, eligible) ==> a in list[..n] && a in people && people[a].alive && a in eligible
  {
    if n > 0 {
      FitMembers(people, list, n - 1, eligible);
      assert list[..n] == list[..n - 1] + [list[n - 1]];
    }
  }

  function FirstOf(list: seq<nat>, limit: nat): seq<nat> {
    if |list| <= limit then list else list[..limit]
  }

  /** Nobody else changes. */
  ghost predicate OnlyEligible(people: People, after: People, eligible: set<nat>) {
    forall a :: a in after && a !in eligible ==> a in people && after[a] == people[a]
  }

  lemma RehomedOnly(people: People, movers: seq<nat>, to: nat, eligible: set<nat>)
    requires forall a :: a in movers ==> a in eligible
    ensures OnlyEligible(people, Rehomed(people, movers, to), eligible)
  {
  }

  /** Who leaves a settlement of so many people: the first eligible, up to Agnosis of the living. */
  ghost function Emigrants(people: People, list: seq<nat>, eligible: set<nat>, living: nat): seq<nat> {
    FirstOf(Fit(people, list, |list|, eligible), Trunc(living as real * AGNOSIS))
  }

  lemma RollAt(people: People, agents: seq<nat>, lists: Lists, s: nat)
    requires RollsOk(people, agents, lists)
    ensures RollOk(people, agents, ListOf(lists, s), s)
  {
  }

  lemma {:induction false} FitGrows(people: People, list: seq<nat>, n: nat, m: nat, eligible: set<nat>)
    requires n <= m <= |list|
    ensures Fit(people, list, n, eligible) <= Fit(people, list, m, eligible)
  {
    if n < m {
      FitGrows(people, list, n, m - 1, eligible);
    }
  }

  /** The first eligible residents in list order, up to the limit. */
  method SelectEmigrants(people: People, list: seq<nat>, eligible: set<nat>, limit: nat, ghost agents: seq<nat>, ghost s: nat)
      returns (emigrants: seq<nat>)
    requires RollOk(people, agents, list, s)
    ensures emigrants == FirstOf(Fit(people, list, |list|, eligible), limit)
    ensures Leavers(people, agents, emigrants, s)
    ensures forall a :: a in emigrants ==> a in eligible
  {
    emigrants := [];
    var k := 0;
    while k < |list| && |emigrants| < limit
      invariant k <= |list| && emigrants == Fit(people, list, k, eligible) && |emigrants| <= limit
    {
      if people[list[k]].alive && list[k] in eligible { emigrants := emigrants + [list[k]]; }
      k := k + 1;
    }
    FitMembers(people, list, k, eligible);
    FitGrows(people, list, k, |list|, eligible);
  }

  // ----- What one step keeps -----------------------------------------------------------------------------

  lemma BornOk(people: People, agents: seq<nat>, lists: Lists, towns: seq<Town>, a: nat, i: nat)
    requires TownsOk(towns) && HomesOk(people, agents, towns) && RollsOk(people, agents, lists) && Covered(people, agents, towns)
    requires i < |towns| && a !in people && Distinct(agents) && forall x :: x in agents ==> x in people
    ensures var s := towns[i].id;
            var after, all := people[a := Person(true, Some(s), [])], agents + [a];
            var towns' := towns[i := towns[i].(population := towns[i].population + 1)];
            && Distinct(all) && Members(all) == Members(agents) + {a}
            && TownsOk(towns') && HomesOk(after, all, towns')
            && RollsOk(after, all, lists[s := ListOf(lists, s) + [a]])
            && Covered(after, all, towns') && (Counted(people, agents, towns) ==> Counted(after, all, towns'))
            && Residents(after, all, s) == Residents(people, agents, s) + {a}
            && forall t :: t != s ==> Residents(after, all, t) == Residents(people, agents, t)
  {
    hide HomesOk, RollsOk, Residents, Covered, Counted, Distinct;
    var s := towns[i].id;
    var towns' := towns[i := towns[i].(population := towns[i].population + 1)];
    DistinctConcat(agents, [a]);
    BornResidents(people, agents, a, s);
    BornCounts(people, agents, towns, a, i);
    BornRolls(people, agents, lists, a, s);
    BornHomes(people, agents, towns, a, s, i);
    SameTownsOk(people[a := Person(true, Some(s), [])], agents + [a], towns, towns');
  }

  lemma BornResidents(people: People, agents: seq<nat>, a: nat, s: nat)
    requires a !in people && forall x :: x in agents ==> x in people
    ensures var after, all := people[a := Person(true, Some(s), [])], agents + [a];
            && Members(all) == Members(agents) + {a} && a !in Residents(people, agents, s)
            && Residents(after, all, s) == Residents(people, agents, s) + {a}
            && forall t :: t != s ==> Residents(after, all, t) == Residents(people, agents, t)
  {
    var after, all := people[a := Person(true, Some(s), [])], agents + [a];
    assert Residents(after, all, s) == Residents(people, agents, s) + {a};
    forall t | t != s ensures Residents(after, all, t) == Residents(people, agents, t) {}
  }

  lemma BornCounts(people: People, agents: seq<nat>, towns: seq<Town>, a: nat, i: nat)
    requires TownsOk(towns) && Covered(people, agents, towns) && i < |towns|
    requires a !in people && forall x :: x in agents ==> x in people
    ensures var after, all := people[a := Person(true, Some(towns[i].id), [])], agents + [a];
            var towns' := towns[i := towns[i].(population := towns[i].population + 1)];
            Covered(after, all, towns') && (Counted(people, agents, towns) ==> Counted(after, all, towns'))
  {
    hide Residents;
    BornResidents(people, agents, a, towns[i].id);
  }

  lemma BornHomes(people: People, agents: seq<nat>, towns: seq<Town>, a: nat, s: nat, i: nat)
    requires HomesOk(people, agents, towns) && i < |towns| && towns[i].id == s
    ensures HomesOk(people[a := Person(true, Some(s), [])], agents + [a], towns)
  {
    assert IsTown(towns, s);
    hide IsTown;
  }

  lemma BornRolls(people: People, agents: seq<nat>, lists: Lists, a: nat, s: nat)
    requires RollsOk(people, agents, lists) && a !in people && forall x :: x in agents ==> x in people
    ensures RollsOk(people[a := Person(true, Some(s), [])], agents + [a], lists[s := ListOf(lists, s) + [a]])
  {
    var after, all, lists' := people[a := Person(true, Some(s), [])], agents + [a], lists[s := ListOf(lists, s) + [a]];
    forall t: nat ensures RollOk(after, all, ListOf(lists', t), t) {
      assert RollOk(people, agents, ListOf(lists, t), t);
      BornRoll(people, agents, ListOf(lists, t), a, s, t);
    }
  }

  lemma BornRoll(people: People, agents: seq<nat>, list: seq<nat>, a: nat, s: nat, t: nat)
    requires RollOk(people, agents, list, t) && a !in people && forall x :: x in agents ==> x in people
    ensures RollOk(people[a := Person(true, Some(s), [])], agents + [a], if s == t then list + [a] else list, t)
  {
    var after, all := people[a := Person(true, Some(s), [])], agents + [a];
    assert Residents(after, all, t) == Residents(people, agents, t) + if s == t then {a} else {};
  }

  lemma DiedOk(people: People, agents: seq<nat>, lists: Lists, towns: seq<Town>, a: nat)
    requires HomesOk(people, agents, towns) && RollsOk(people, agents, lists) && Covered(people, agents, towns)
    requires a in people
    ensures var after := people[a := people[a].(alive := false)];
            && HomesOk(after, agents, towns) && RollsOk(after, agents, lists) && Covered(after, agents, towns)
            && forall s :: Residents(after, agents, s) == Residents(people, agents, s) - {a}
  {
    hide IsTown;
    var after := people[a := people[a].(alive := false)];
    forall s ensures Residents(after, agents, s) == Residents(people, agents, s) - {a} {}
    forall s: nat ensures RollOk(after, agents, ListOf(lists, s), s) {
      assert RollOk(people, agents, ListOf(lists, s), s);
    }
    forall i | 0 <= i < |towns| ensures towns[i].population >= |Residents(after, agents, towns[i].id)| {
      Subset(Residents(after, agents, towns[i].id), Residents(people, agents, towns[i].id));
    }
  }

  /** The homes after the first n moves. */
  ghost function Relocated(people: People, towns: seq<Town>, moves: seq<(nat, nat)>, n: nat): People
    requires n <= |moves| && forall k :: 0 <= k < |moves| ==> moves[k].0 in people && moves[k].1 < |towns|
    ensures Relocated(people, towns, moves, n).Keys == people.Keys
  {
    if n == 0 then people
    else
      var before := Relocated(people, towns, moves, n - 1);
      before[moves[n - 1].0 := before[moves[n - 1].0].(home := Some(towns[moves[n - 1].1].id))]
  }

  lemma MovedHome(people: People, agents: seq<nat>, towns: seq<Town>, a: nat, s: nat)
    requires a in people && HomesOk(people, agents, towns) && IsTown(towns, s)
    ensures HomesOk(people[a := people[a].(home := Some(s))], agents, towns)
  {
    hide IsTown;
  }

  predicate Ghost(t: Town) { t.population == 0 && !t.settled }

  function Inhabited(towns: seq<Town>, n: nat): seq<Town>
    requires n <= |towns|
  {
    if n == 0 then []
    else Inhabited(towns, n - 1) + if Ghost(towns[n - 1]) then [] else [towns[n - 1]]
  }

  function DropGhosts(lists: Lists, towns: seq<Town>, n: nat): Lists
    requires n <= |towns|
  {
    lists - set k | 0 <= k < n && Ghost(towns[k]) :: towns[k].id
  }

  lemma {:induction false} InhabitedMembers(towns: seq<Town>, n: nat)
    requires n <= |towns| && TownsOk(towns)
    ensures TownsOk(Inhabited(towns, n))
    ensures forall t :: t in Inhabited(towns, n) <==> t in towns[..n] && !Ghost(t)
  {
    if n > 0 {
      InhabitedMembers(towns, n - 1);
      assert towns[..n] == towns[..n - 1] + [towns[n - 1]];
      var rest := Inhabited(towns, n - 1);
      forall i | 0 <= i < |rest| ensures rest[i].id != towns[n - 1].id {
        assert rest[i] in rest;
      }
    }
  }

  /** A settlement survives exactly if it is not a ghost. */
  lemma TownSurvives(towns: seq<Town>, k: nat)
    requires TownsOk(towns) && k < |towns|
    ensures IsTown(Inhabited(towns, |towns|), towns[k].id) <==> !Ghost(towns[k])
  {
    hide Inhabited;
    var towns' := Inhabited(towns, |towns|);
    InhabitedMembers(towns, |towns|);
    assert towns[..|towns|] == towns;
    if Ghost(towns[k]) {
      forall j | 0 <= j < |towns'| ensures towns'[j].id != towns[k].id {
        assert towns'[j] in towns';
      }
    } else {
      assert towns[k] in towns';
    }
  }

  lemma NoNewTowns(towns: seq<Town>, s: nat)
    requires TownsOk(towns) && IsTown(Inhabited(towns, |towns|), s)
    ensures IsTown(towns, s)
  {
    hide Inhabited;
    var towns' := Inhabited(towns, |towns|);
    InhabitedMembers(towns, |towns|);
    assert towns[..|towns|] == towns;
    var j :| 0 <= j < |towns'| && towns'[j].id == s;
    assert towns'[j] in towns';
    var k :| 0 <= k < |towns| && towns[k] == towns'[j];
    assert towns[k].id == s;
  }

  lemma GhostsLoseLists(lists: Lists, towns: seq<Town>, s: nat)
    requires TownsOk(towns)
    ensures ListOf(DropGhosts(lists, towns, |towns|), s) ==
            if IsTown(towns, s) && !IsTown(Inhabited(towns, |towns|), s) then [] else ListOf(lists, s)
  {
    hide Inhabited, TownsOk;
    if IsTown(towns, s) {
      var k :| 0 <= k < |towns| && towns[k].id == s;
      TownSurvives(towns, k);
      if !Ghost(towns[k]) {
        OtherIds(towns, k);
      }
    }
  }

  lemma OtherIds(towns: seq<Town>, k: nat)
    requires TownsOk(towns) && k < |towns|
    ensures forall j :: 0 <= j < |towns| && towns[j].id == towns[k].id ==> j == k
  {
  }

  lemma GhostsAreEmpty(people: People, agents: seq<nat>, lists: Lists, towns: seq<Town>, s: nat)
    requires TownsOk(towns) && Covered(people, agents, towns)
    ensures var towns' := Inhabited(towns, |towns|);
            && (IsTown(towns', s) ==> IsTown(towns, s))
            && (IsTown(towns, s) && !IsTown(towns', s) ==> Residents(people, agents, s) == {})
            && ListOf(DropGhosts(lists, towns, |towns|), s) ==
               if IsTown(towns, s) && !IsTown(towns', s) then [] else ListOf(lists, s)
  {
    hide Residents, Inhabited, DropGhosts, TownsOk;
    GhostsLoseLists(lists, towns, s);
    if IsTown(Inhabited(towns, |towns|), s) {
      NoNewTowns(towns, s);
    } else if IsTown(towns, s) {
      var k :| 0 <= k < |towns| && towns[k].id == s;
      TownSurvives(towns, k);
    }
  }

  lemma InhabitedSettled(towns: seq<Town>)
    requires TownsOk(towns) && forall i :: 0 <= i < |towns| ==> towns[i].settled
    ensures forall i :: 0 <= i < |Inhabited(towns, |towns|)| ==> Inhabited(towns, |towns|)[i].settled
  {
    InhabitedMembers(towns, |towns|);
    forall i | 0 <= i < |Inhabited(towns, |towns|)| ensures Inhabited(towns, |towns|)[i].settled {
      assert Inhabited(towns, |towns|)[i] in Inhabited(towns, |towns|);
    }
  }

  lemma InhabitedOk(people: People, agents: seq<nat>, lists: Lists, towns: seq<Town>)
    requires TownsOk(towns) && HomesOk(people, agents, towns) && RollsOk(people, agents, lists) && Covered(people, agents, towns)
    ensures var towns', lists' := Inhabited(towns, |towns|), DropGhosts(lists, towns, |towns|);
            && TownsOk(towns') && HomesOk(people, agents, towns') && RollsOk(people, agents, lists')
            && Covered(people, agents, towns') && (Counted(people, agents, towns) ==> Counted(people, agents, towns'))
            && forall s: nat :: ListOf(lists', s) ==
                 if IsTown(towns, s) && !IsTown(towns', s) then [] else ListOf(lists, s)
  {
    hide Inhabited, DropGhosts, ListOf, IsTown, RollOk, Residents, Covered, Counted;
    var towns', lists' := Inhabited(towns, |towns|), DropGhosts(lists, towns, |towns|);
    InhabitedCounts(people, agents, towns);
    forall s: nat
      ensures RollOk(people, agents, ListOf(lists', s), s)
      ensures ListOf(lists', s) == if IsTown(towns, s) && !IsTown(towns', s) then [] else ListOf(lists, s)
    {
      GhostsAreEmpty(people, agents, lists, towns, s);
      assert RollOk(people, agents, ListOf(lists, s), s);
      if Residents(people, agents, s) == {} {
        EmptyRoll(people, agents, s);
      }
    }
    forall a, s: nat | a in agents && LivesIn(people, a, s) ensures IsTown(towns', s) {
      GhostsAreEmpty(people, agents, lists, towns, s);
      ResidentsHave(people, agents, a, s);
    }
  }

  lemma ResidentsHave(people: People, agents: seq<nat>, a: nat, s: nat)
    requires a in agents && LivesIn(people, a, s)
    ensures a in Residents(people, agents, s)
  {
  }

  lemma EmptyRoll(people: People, agents: seq<nat>, s: nat)
    requires Residents(people, agents, s) == {}
    ensures RollOk(people, agents, [], s)
  {
  }

  lemma InhabitedCounts(people: People, agents: seq<nat>, towns: seq<Town>)
    requires TownsOk(towns) && Covered(people, agents, towns)
    ensures var towns' := Inhabited(towns, |towns|);
            && TownsOk(towns') && Covered(people, agents, towns')
            && (Counted(people, agents, towns) ==> Counted(people, agents, towns'))
  {
    hide Residents, Inhabited;
    var towns' := Inhabited(towns, |towns|);
    InhabitedMembers(towns, |towns|);
    assert towns[..|towns|] == towns;
    forall k | 0 <= k < |towns'| ensures towns'[k] in towns { assert towns'[k] in towns'; }
  }

  lemma FoundedOk(people: People, agents: seq<nat>, lists: Lists, towns: seq<Town>, movers: seq<nat>, i: nat, id: nat)
    requires TownsOk(towns) && HomesOk(people, agents, towns) && RollsOk(people, agents, lists) && Covered(people, agents, towns)
    requires i < |towns| && !IsTown(towns, id) && Leavers(people, agents, movers, towns[i].id)
    requires |movers| <= towns[i].population
    ensures var from := towns[i].id;
            var after, towns' := Rehomed(people, movers, id), Shifted(towns + [Town(id, 0, true)], |movers|, i, |towns|);
            && from != id && TownsOk(towns') && HomesOk(after, agents, towns')
            && RollsOk(after, agents, lists[id := movers][from := Keep(ListOf(lists, from), movers)])
            && Covered(after, agents, towns') && (Counted(people, agents, towns) ==> Counted(after, agents, towns'))
            && Residents(after, agents, from) == Residents(people, agents, from) - Members(movers)
            && Residents(after, agents, id) == Members(movers)
  {
    hide Residents, RollOk, HomesOk, Rehomed, Leavers, Covered, Counted, TownsOk, Keep;
    var from := towns[i].id;
    assert IsTown(towns, from);
    NobodyHome(people, agents, towns, id);
    NewTown(people, agents, towns, id);
    var empty := lists[id := []];
    forall s: nat ensures RollOk(people, agents, ListOf(empty, s), s) {
      assert RollOk(people, agents, ListOf(lists, s), s);
    }
    MovedOk(people, agents, empty, towns + [Town(id, 0, true)], movers, i, |towns|);
    assert [] + movers == movers;
    var rest: seq<nat> := Keep(ListOf(lists, from), movers);
    var was: Lists := empty[from := rest];
    var now: Lists := lists[id := movers];
    assert was[id := movers] == now[from := rest];
  }

  function Shifted(towns: seq<Town>, n: nat, i: nat, j: nat): seq<Town>
    requires i < |towns| && j < |towns| && i != j && n <= towns[i].population
  {
    towns[i := towns[i].(population := towns[i].population - n)][j := towns[j].(population := towns[j].population + n)]
  }

  lemma MovedOk(people: People, agents: seq<nat>, lists: Lists, towns: seq<Town>, movers: seq<nat>, i: nat, j: nat)
    requires TownsOk(towns) && HomesOk(people, agents, towns) && RollsOk(people, agents, lists) && Covered(people, agents, towns)
    requires i < |towns| && j < |towns| && i != j && Leavers(people, agents, movers, towns[i].id)
    requires |movers| <= towns[i].population
    ensures var from, to := towns[i].id, towns[j].id;
            var after, towns' := Rehomed(people, movers, to), Shifted(towns, |movers|, i, j);
            && from != to && TownsOk(towns') && HomesOk(after, agents, towns')
            && RollsOk(after, agents, lists[from := Keep(ListOf(lists, from), movers)][to := ListOf(lists, to) + movers])
            && Covered(after, agents, towns') && (Counted(people, agents, towns) ==> Counted(after, agents, towns'))
            && Residents(after, agents, from) == Residents(people, agents, from) - Members(movers)
            && Residents(after, agents, to) == Residents(people, agents, to) + Members(movers)
  {
    hide Residents, RollOk, HomesOk, Rehomed, Leavers, Covered, Counted;
    var from, to, towns' := towns[i].id, towns[j].id, Shifted(towns, |movers|, i, j);
    assert from != to;
    assert RollOk(people, agents, ListOf(lists, to), to);
    MovedRolls(people, agents, lists, movers, from, to, ListOf(lists, to));
    MovedHomes(people, agents, towns, movers, to);
    MovedResidents(people, agents, movers, from, to);
    MovedCounts(people, agents, towns, movers, i, j, towns');
    SameTownsOk(Rehomed(people, movers, to), agents, towns, towns');
  }

  lemma SameHomes(people: People, agents: seq<nat>, people': People, agents': seq<nat>, towns: seq<Town>)
    requires forall s :: Residents(people', agents', s) == Residents(people, agents, s)
    requires HomesOk(people, agents, towns)
    ensures HomesOk(people', agents', towns)
  {
    hide IsTown;
    forall a, s: nat | a in agents' && LivesIn(people', a, s) ensures IsTown(towns, s) {
      assert a in Residents(people', agents', s);
      assert a in Residents(people, agents, s);
    }
  }

  /** Leavers are counted, so the unsigned counter cannot wrap. */
  lemma EnoughCounted(people: People, agents: seq<nat>, towns: seq<Town>, movers: seq<nat>, i: nat)
    requires i < |towns| && Covered(people, agents, towns) && Leavers(people, agents, movers, towns[i].id)
    ensures |movers| <= towns[i].population
  {
    DistinctSize(movers);
    Subset(Members(movers), Residents(people, agents, towns[i].id));
  }

  lemma Subset(a: set<nat>, b: set<nat>)
    requires a <= b
    ensures |a| <= |b|
  {
    assert b == a + (b - a);
  }

  lemma LeaversKnown(people: People, agents: seq<nat>, movers: seq<nat>, from: nat)
    requires Leavers(people, agents, movers, from)
    ensures forall a :: a in movers ==> a in people
  {
  }
}
