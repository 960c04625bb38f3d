/** Raids and peace treaties between settlement pairs: internal/engine/peace.go and the gating of
    internal/engine/warfare.go, in the weekly order of internal/engine/simulation.go. */
module Warfare {
  import opened Accounts
  import opened Hex
  import opened Pairs
  import opened Phi

  const PEACE_WEEKS: nat := 8
  const RAID_THRESHOLD: nat := 3

  // ----- One pair ------------------------------------------------------------------------

  /** Raids counted since the last treaty, and weeks left of the present one (0 if there is none). */
  datatype Feud = Feud(count: nat, treaty: nat)

  function Formed(f: Feud): Feud {
    if f.count >= RAID_THRESHOLD && f.treaty == 0 then Feud(0, PEACE_WEEKS) else f
  }

  function Ticked(f: Feud): Feud {
    if f.treaty > 0 then f.(treaty := f.treaty - 1) else f
  }

  /** The peace phase: a new treaty is ticked in the very call that forms it. */
  function PeacePhase(f: Feud): Feud { Ticked(Formed(f)) }

  function RaidPhase(f: Feud, raid: bool): Feud
    requires raid ==> f.treaty == 0
  {
    if raid then f.(count := f.count + 1) else f
  }

  /** Raids among the last m weeks of a log. */
  ghost function Recent(log: seq<bool>, m: nat): nat {
    if m == 0 || log == [] then 0
    else (if log[|log| - 1] then 1 else 0) + Recent(log[..|log| - 1], m - 1)
  }

  lemma RecentAppend(log: seq<bool>, raid: bool, m: nat)
    requires m > 0
    ensures Recent(log + [raid], m) == (if raid then 1 else 0) + Recent(log, m - 1)
  {
    assert (log + [raid])[..|log|] == log;
  }

  lemma {:induction false} RecentGrows(log: seq<bool>, m: nat, n: nat)
    requires m <= n
    ensures Recent(log, m) <= Recent(log, n) <= Recent(log, m) + (n - m)
    ensures m == 0 ==> Recent(log, m) == 0
  {
    if m > 0 && log != [] {
      RecentGrows(log[..|log| - 1], m - 1, n - 1);
    } else if n > 0 && log != [] {
      RecentGrows(log[..|log| - 1], 0, n - 1);
    }
  }

  /** At most three raids in any ten consecutive weeks. */
  ghost predicate Bounded(log: seq<bool>) {
    forall n :: 0 <= n <= |log| ==> Recent(log[..n], 10) <= 3
  }

  /** The first raid after every third one comes at least eight weeks after it. */
  ghost predicate Spaced(log: seq<bool>) {
    forall n :: 0 <= n < |log| && log[n] && Raids(log[..n]) % RAID_THRESHOLD == 0 ==> Recent(log[..n], 7) == 0
  }

  ghost function Raids(log: seq<bool>): nat { Recent(log, |log|) }

  /** How the weeks gone by constrain a feud. */
  ghost predicate Weary(f: Feud, log: seq<bool>) {
    && Raids(log) % RAID_THRESHOLD == f.count % RAID_THRESHOLD
    && (f.treaty > 0 ==>
          f.treaty < PEACE_WEEKS && f.count == 0 && Quiet(log, 8 - f.treaty))
    && (f.treaty == 0 ==>
          && f.count <= RAID_THRESHOLD
          && (f.count == 0 ==> Quiet(log, 7))
          && (f.count == 1 ==> Recent(log, 8) <= 1 && Recent(log, 9) <= 2)
          && (f.count == 2 ==> Recent(log, 9) <= 2))
  }

  /** No raid in the last m weeks, and at most one more for each week before that. */
  ghost predicate Quiet(log: seq<bool>, m: nat) {
    Recent(log, m) == 0 && Recent(log, m + 1) <= 1 && Recent(log, m + 2) <= 2
  }

  ghost predicate Lawful(f: Feud, log: seq<bool>) {
    Weary(f, log) && Bounded(log) && Spaced(log)
  }

  lemma RaidsAppend(log: seq<bool>, raid: bool)
    ensures Raids(log + [raid]) == Raids(log) + if raid then 1 else 0
  {
    RecentAppend(log, raid, |log| + 1);
  }

  lemma RecentStep(log: seq<bool>, raid: bool, m: nat)
    requires m > 0
    ensures Recent(log + [raid], m) == (if raid then 1 else 0) + Recent(log, m - 1)
    ensures Recent(log, m - 1) <= Recent(log, m)
  {
    RecentAppend(log, raid, m);
    RecentGrows(log, m - 1, m);
  }

  lemma WearyStep(f: Feud, log: seq<bool>, raid: bool)
    requires Weary(f, log) && (raid ==> PeacePhase(f).treaty == 0)
    ensures Weary(RaidPhase(PeacePhase(f), raid), log + [raid])
    ensures raid ==> Recent(log, 9) <= 2
    ensures raid && Raids(log) % RAID_THRESHOLD == 0 ==> Recent(log, 7) == 0
  {
    hide Recent, Raids;
    RaidsAppend(log, raid);
    RecentGrows(log, 0, 1);
    RecentGrows(log, 0, 2);
    RecentGrows(log, 1, 2);
    RecentStep(log, raid, 7);
    RecentStep(log, raid, 8);
    RecentStep(log, raid, 9);
    RecentStep(log, raid, 10);
    if f.treaty > 1 {
      RecentStep(log, raid, 9 - f.treaty);
      RecentStep(log, raid, 10 - f.treaty);
      RecentStep(log, raid, 11 - f.treaty);
    } else if f.treaty == 0 && f.count == RAID_THRESHOLD {
      RecentStep(log, raid, 1);
      RecentStep(log, raid, 2);
      RecentStep(log, raid, 3);
    }
    assert f.treaty == 1 ==> Quiet(log, 7);
  }

  /** A week of any kind keeps a feud lawful: this is where war exhaustion is proved. */
  lemma LawfulStep(f: Feud, log: seq<bool>, raid: bool)
    requires Lawful(f, log) && (raid ==> PeacePhase(f).treaty == 0)
    ensures Lawful(RaidPhase(PeacePhase(f), raid), log + [raid])
  {
    WearyStep(f, log, raid);
    var longer := log + [raid];
    RecentAppend(log, raid, 10);
    assert log[..|log|] == log && longer[..|longer|] == longer;
    RecentGrows(log, 9, 10);
    forall n | 0 <= n <= |log| ensures longer[..n] == log[..n] { }
  }

  /** The state a log of weeks leads to, if no week raids under a treaty. */
  ghost function Play(log: seq<bool>): Option<Feud> {
    if log == [] then Some(Feud(0, 0))
    else
      var n := |log| - 1;
      var before := Play(log[..n]);
      if before.None? || (log[n] && PeacePhase(before.value).treaty > 0) then None
      else Some(RaidPhase(PeacePhase(before.value), log[n]))
  }

  /** War exhaustion, on every run of a pair from no treaty and no raids. */
  lemma {:induction false} WarExhaustion(log: seq<bool>)
    requires Play(log).Some?
    ensures Lawful(Play(log).value, log)
  {
    if log != [] {
      var n := |log| - 1;
      assert log == log[..n] + [log[n]];
      WarExhaustion(log[..n]);
      LawfulStep(Play(log[..n]).value, log[..n], log[n]);
    }
  }

  lemma PlayOn(log: seq<bool>, raid: bool)
    requires Play(log).Some? && (raid ==> PeacePhase(Play(log).value).treaty == 0)
    ensures Play(log + [raid]) == Some(RaidPhase(PeacePhase(Play(log).value), raid))
  {
    assert (log + [raid])[..|log|] == log;
  }

  /** A pair as eager as the rules allow: both limits are reached. Its fourth raid comes exactly eight weeks
      after its third, and eleven weeks can hold four raids. */
  lemma LimitsAreTight() returns (log: seq<bool>)
    ensures Play(log).Some? && |log| == 13 && log[2] && log[10]
    ensures Recent(log, 10) == 3 && Recent(log, 11) == 4
  {
    hide Play, Recent;
    log := [];
    PlayNothing();
    ghost var f := Feud(0, 0);
    for k := 0 to 13
      invariant |log| == k && Play(log) == Some(f)
      invariant forall j :: 0 <= j < k ==> (log[j] <==> j < 3 || j >= 10)
      invariant f == if k <= 3 then Feud(k, 0) else if k <= 10 then Feud(0, 11 - k) else Feud(k - 10, 0)
      invariant k >= 3 && k <= 10 ==> Recent(log, k - 3) == 0
      invariant k == 3 ==> Recent(log, 1) == 1
      invariant k >= 3 && k <= 10 ==> Recent(log, k - 2) == 1
      invariant k > 10 ==> Recent(log, k - 3) == k - 10 && Recent(log, k - 2) == k - 9
    {
      var raid := k < 3 || k >= 10;
      PlayOn(log, raid);
      forall m: nat | m > 0 ensures Recent(log + [raid], m) == (if raid then 1 else 0) + Recent(log, m - 1) {
        RecentAppend(log, raid, m);
      }
      NoWeeks(log);
      NoWeeks(log + [raid]);
      log := log + [raid];
      f := RaidPhase(PeacePhase(f), raid);
    }
  }

  lemma NoWeeks(log: seq<bool>)
    ensures Recent(log, 0) == 0
  {
  }

  lemma PlayNothing()
    ensures Play([]) == Some(Feud(0, 0))
  {
  }

  // ----- All pairs -------------------------------------------------------------------------

  datatype Town = Town(pos: Coord, population: nat)

  /** Sentiment during a treaty week: recovery towards neutrality, never beyond it. */
  function Recovered(sentiment: real): real {
    var x := sentiment + AGNOSIS * 0.1;
    if x > 0.0 then 0.0 else x
  }

  /** Sentiment after a fought raid. */
  function Embittered(sentiment: real): real {
    var x := sentiment - PSYCHE;
    if x < -1.0 then -1.0 else x
  }

  ghost function LogOf(history: seq<set<Key>>, k: Key): seq<bool> {
    seq(|history|, w requires 0 <= w < |history| => k in history[w])
  }

  /** Everything but a treaty that keeps a pair from raiding. */
  predicate MayRaid(k: Key, sentiment: real, towns: map<nat, Town>, allies: set<Key>, willing: set<(nat, nat)>) {
    && sentiment < -AGNOSIS
    && k.a in towns && k.b in towns && towns[k.a].population >= 50 && towns[k.b].population >= 50
    && Distance(towns[k.a].pos, towns[k.b].pos) <= 5
    && k !in allies
    && ((k.a, k.b) in willing || (k.b, k.a) in willing)
  }

  function FeudIn(raidCounts: map<Key, nat>, treaties: map<Key, nat>, k: Key): Feud {
    Feud(if k in raidCounts then raidCounts[k] else 0, if k in treaties then treaties[k] else 0)
  }

  ghost predicate Running(treaties: map<Key, nat>) {
    forall k :: k in treaties ==> treaties[k] > 0
  }

  /** War-weary pairs get a treaty. */
  method FormTreaties(raidCounts: map<Key, nat>, treaties: map<Key, nat>)
    returns (counts: map<Key, nat>, treaties': map<Key, nat>)
    requires Running(treaties)
    ensures Running(treaties')
    ensures forall k: Key :: FeudIn(counts, treaties', k) == Formed(FeudIn(raidCounts, treaties, k))
  {
    counts, treaties' := raidCounts, treaties;
    var todo := raidCounts.Keys;
    while todo != {}
      invariant Running(treaties') && todo <= raidCounts.Keys == counts.Keys
      invariant forall k: Key :: k in todo ==> FeudIn(counts, treaties', k) == FeudIn(raidCounts, treaties, k)
      invariant forall k: Key :: k !in todo ==> FeudIn(counts, treaties', k) == Formed(FeudIn(raidCounts, treaties, k))
    {
      var k :| k in todo;
      assert FeudIn(counts, treaties', k) == FeudIn(raidCounts, treaties, k);
      if counts[k] >= RAID_THRESHOLD && k !in treaties' {
        treaties' := treaties'[k := PEACE_WEEKS];
        counts := counts[k := 0];
      }
      todo := todo - {k};
    }
  }

  /** What a week of peace does to the sentiments of the pairs under treaty. */
  ghost predicate Healed(before: map<Key, real>, after: map<Key, real>, healed: set<Key>) {
    && after.Keys == before.Keys
    && (forall k :: k in after ==> after[k] == if k in healed then Recovered(before[k]) else before[k])
  }

  /** Each treaty loses a week and its pair recovers a little; spent treaties go. */
  method TickTreaties(treaties: map<Key, nat>, sentiment: map<Key, real>)
    returns (treaties': map<Key, nat>, sentiment': map<Key, real>)
    requires Running(treaties)
    ensures Running(treaties')
    ensures forall counts: map<Key, nat>, k: Key :: FeudIn(counts, treaties', k) == Ticked(FeudIn(counts, treaties, k))
    ensures Healed(sentiment, sentiment', treaties.Keys)
  {
    treaties', sentiment' := treaties, sentiment;
    var todo := treaties.Keys;
    while todo != {}
      invariant Running(treaties') && todo <= treaties'.Keys <= treaties.Keys
      invariant forall k :: k in todo ==> treaties'[k] == treaties[k]
      invariant forall k :: k in treaties && k !in todo ==>
        if treaties[k] == 1 then k !in treaties' else k in treaties' && treaties'[k] == treaties[k] - 1
      invariant Healed(sentiment, sentiment', treaties.Keys - todo)
    {
      var k :| k in todo;
      var left := treaties'[k] - 1;
      if k in sentiment' {
        sentiment' := sentiment'[k := Recovered(sentiment'[k])];
      }
      treaties' := if left <= 0 then treaties' - {k} else treaties'[k := left];
      todo := todo - {k};
    }
  }

  /** The pairs that raid in a raid phase: those that may and have no treaty. */
  ghost predicate AreRaids(raids: set<Key>, sentiment: map<Key, real>, seen: set<Key>, treaties: map<Key, nat>,
                           towns: map<nat, Town>, allies: set<Key>, willing: set<(nat, nat)>) {
    forall k: Key :: k in raids <==>
      k in sentiment && k in seen && k !in treaties && MayRaid(k, sentiment[k], towns, allies, willing)
  }

  ghost predicate Counted(before: map<Key, nat>, after: map<Key, nat>, raids: set<Key>) {
    forall treaties: map<Key, nat>, k: Key :: FeudIn(after, treaties, k) ==
      (var f := FeudIn(before, treaties, k); f.(count := f.count + if k in raids then 1 else 0))
  }

  ghost predicate Hardened(before: map<Key, real>, after: map<Key, real>, raids: set<Key>) {
    && after.Keys == before.Keys
    && (forall k :: k in after ==> after[k] == if k in raids then Embittered(before[k]) else before[k])
  }

  lemma CountOne(before: map<Key, nat>, counts: map<Key, nat>, raids: set<Key>, k: Key)
    requires Counted(before, counts, raids) && k !in raids
    ensures Counted(before, counts[k := (if k in counts then counts[k] else 0) + 1], raids + {k})
  {
    var after := counts[k := (if k in counts then counts[k] else 0) + 1];
    forall treaties: map<Key, nat>, j: Key
      ensures FeudIn(after, treaties, j) ==
        (var f := FeudIn(before, treaties, j); f.(count := f.count + if j in raids + {k} then 1 else 0))
    {
      assert FeudIn(counts, treaties, j) ==
        (var f := FeudIn(before, treaties, j); f.(count := f.count + if j in raids then 1 else 0));
    }
  }

  class Conflict {
    var treaties: map<Key, nat>       // PeaceTreaties: remaining weeks
    var raidCounts: map<Key, nat>
    var sentiment: map<Key, real>     // Relations
    ghost var history: seq<set<Key>>  // the pairs that raided, week by week

    ghost predicate Valid()
      reads this
    {
      Running(treaties) && forall k: Key :: Lawful(FeudIn(raidCounts, treaties, k), LogOf(history, k))
    }

    constructor ()
      ensures Valid() && treaties == map[] && raidCounts == map[] && history == []
    {
      treaties, raidCounts, sentiment, history := map[], map[], map[], [];
    }

    predicate HasPeace(x: nat, y: nat)
      reads this
    {
      PairKey(x, y) in treaties
    }

    method RecordRaid(x: nat, y: nat)
      modifies `raidCounts
      ensures var k := PairKey(x, y);
              raidCounts == old(raidCounts)[k := (if k in old(raidCounts) then old(raidCounts)[k] else 0) + 1]
    {
      var k := PairKey(x, y);
      raidCounts := raidCounts[k := if k in raidCounts then raidCounts[k] + 1 else 1];
    }

    method ProcessPeace()
      requires Running(treaties)
      modifies `treaties, `raidCounts, `sentiment
      ensures Running(treaties)
      ensures forall k: Key :: FeudIn(raidCounts, treaties, k) == PeacePhase(FeudIn(old(raidCounts), old(treaties), k))
      ensures exists healed :: Healed(old(sentiment), sentiment, healed) &&
                forall k: Key :: k in healed <==> Formed(FeudIn(old(raidCounts), old(treaties), k)).treaty > 0
    {
      raidCounts, treaties := FormTreaties(raidCounts, treaties);
      ghost var formed := treaties;
      assert forall k: Key :: k in formed <==> FeudIn(raidCounts, formed, k).treaty > 0;
      treaties, sentiment := TickTreaties(treaties, sentiment);
      assert Healed(old(sentiment), sentiment, formed.Keys);
    }

    /** The raid phase. `willing` holds the (attacker, defender) pairs whose raid evaluation succeeds and
        `fought` the pairs whose raid is actually fought out. */
    method ProcessWarfare(towns: map<nat, Town>, allies: set<Key>, willing: set<(nat, nat)>, fought: set<Key>)
      returns (raids: set<Key>)
      requires Canonical(sentiment.Keys)
      modifies `raidCounts, `sentiment
      ensures AreRaids(raids, old(sentiment), old(sentiment).Keys, treaties, towns, allies, willing)
      ensures Counted(old(raidCounts), raidCounts, raids)
      ensures Hardened(old(sentiment), sentiment, raids * fought)
    {
      hide MayRaid, Counted;
      raids := {};
      NothingCounted(raidCounts);
      var todo := sentiment.Keys;
      while todo != {}
        invariant todo <= sentiment.Keys
        invariant AreRaids(raids, old(sentiment), old(sentiment).Keys - todo, treaties, towns, allies, willing)
        invariant Counted(old(raidCounts), raidCounts, raids)
        invariant Hardened(old(sentiment), sentiment, raids * fought)
      {
        var k :| k in todo;
        todo := todo - {k};
        assert PairKey(k.a, k.b) == k && k !in raids;
        if MayRaid(k, sentiment[k], towns, allies, willing) && !HasPeace(k.a, k.b) {
          var attacker, defender := if (k.a, k.b) in willing then k.a else k.b, if (k.a, k.b) in willing then k.b else k.a;
          assert PairKey(attacker, defender) == k;
          if k in fought {
            sentiment := sentiment[k := Embittered(sentiment[k])];
          }
          CountOne(old(raidCounts), raidCounts, raids, k);
          RecordRaid(attacker, defender);
          raids := raids + {k};
        }
      }
    }

    /** One week: relations are recomputed, then the peace phase, then the raid phase. Whatever the relations,
        towns, alliances and willingness to raid, no pair ever raids more than three times in any ten
        consecutive weeks, and after every third raid of a pair there are at least seven weeks without one. */
    method Week(relations: map<Key, real>, towns: map<nat, Town>, allies: set<Key>, willing: set<(nat, nat)>, fought: set<Key>)
      returns (raids: set<Key>, ghost mood: map<Key, real>)
      requires Valid() && Canonical(relations.Keys)
      modifies this
      ensures Valid()
      ensures history == old(history) + [raids]
      ensures exists healed :: Healed(relations, mood, healed) &&
                forall k: Key :: k in healed <==> Formed(FeudIn(old(raidCounts), old(treaties), k)).treaty > 0
      ensures AreRaids(raids, mood, mood.Keys, treaties, towns, allies, willing)
      ensures Hardened(mood, sentiment, raids * fought)
      ensures forall k: Key :: FeudIn(raidCounts, treaties, k).treaty == PeacePhase(FeudIn(old(raidCounts), old(treaties), k)).treaty
      ensures forall k: Key :: FeudIn(raidCounts, treaties, k).count ==
                PeacePhase(FeudIn(old(raidCounts), old(treaties), k)).count + if k in raids then 1 else 0
      ensures forall k: Key :: Bounded(LogOf(history, k)) && Spaced(LogOf(history, k))
    {
      hide MayRaid, Lawful, Bounded, Spaced;
      ghost var counts, truce := raidCounts, treaties;
      sentiment := relations;
      ProcessPeace();
      ghost var counts', truce' := raidCounts, treaties;
      Healing(relations, sentiment);
      mood := sentiment;
      raids := ProcessWarfare(towns, allies, willing, fought);
      history := history + [raids];
      forall k: Key
        ensures Lawful(FeudIn(raidCounts, treaties, k), LogOf(history, k))
        ensures Bounded(LogOf(history, k)) && Spaced(LogOf(history, k))
      {
        assert LogOf(history, k) == LogOf(old(history), k) + [k in raids];
        assert FeudIn(counts', truce', k) == PeacePhase(FeudIn(counts, truce, k));
        assert FeudIn(raidCounts, truce', k) == RaidPhase(FeudIn(counts', truce', k), k in raids);
        LawfulStep(FeudIn(counts, truce, k), LogOf(old(history), k), k in raids);
        LawfulLimits(FeudIn(raidCounts, treaties, k), LogOf(history, k));
      }
    }
  }

  lemma NothingCounted(counts: map<Key, nat>)
    ensures Counted(counts, counts, {})
  {
  }

  lemma Healing(before: map<Key, real>, after: map<Key, real>)
    requires exists healed :: Healed(before, after, healed)
    ensures after.Keys == before.Keys
  {
  }

  lemma LawfulLimits(f: Feud, log: seq<bool>)
    requires Lawful(f, log)
    ensures Bounded(log) && Spaced(log)
  {
  }
}
