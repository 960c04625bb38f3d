/** Persistent trade routes: internal/engine/trade_routes.go. */
module TradeRoutes {
  import opened Accounts
  import opened Pairs

  const ESTABLISH: real := 4.0
  const FLOURISH: real := 8.0
  const LEGENDARY: real := 16.0
  const DECAY: real := 2.0

  datatype Route = Route(level: nat, sustained: nat, dormant: nat)

  /** The volume a route needs this week to rise above its level. */
  function Threshold(level: nat): real {
    if level == 0 then ESTABLISH else if level == 1 then FLOURISH else LEGENDARY
  }

  function Less(n: nat): nat { if n > 0 then n - 1 else 0 }

  /** A week with enough trade: another sustained week, and perhaps a higher level. */
  function Grown(r: Option<Route>, vol: real): Route {
    var g := if r.None? then Route(0, 1, 0) else r.value.(sustained := r.value.sustained + 1, dormant := 0);
    if g.level < 3 && g.sustained >= g.level + 2 && vol >= Threshold(g.level) then g.(level := g.level + 1) else g
  }

  /** A week of dormancy; sustained weeks are worn down, not reset. */
  function Slept(r: Route): Route {
    r.(dormant := r.dormant + 1, sustained := Less(r.sustained))
  }

  /** The first pass: pairs with recorded trade. */
  function Traded(r: Option<Route>, vol: real): Option<Route> {
    if vol >= ESTABLISH then Some(Grown(r, vol))
    else if r.None? then None
    else if vol < DECAY then Some(Slept(r.value))
    else Some(r.value.(dormant := 0))
  }

  /** The end of the second pass: long dormant routes lose a level or vanish. */
  function Pruned(r: Route): Option<Route> {
    if r.dormant >= 2 && r.level > 0 then
      if r.level == 1 then None else Some(r.(level := r.level - 1, dormant := 0))
    else if r.level == 0 && r.dormant >= 3 then None
    else Some(r)
  }

  /** One week of one pair; no volume means the pair is not in the tracker. */
  function Week(r: Option<Route>, vol: Option<real>): Option<Route> {
    var t := if vol.Some? then Traded(r, vol.value) else if r.Some? then Some(Slept(r.value)) else None;
    if t.Some? then Pruned(t.value) else None
  }

  function LevelOf(r: Option<Route>): nat { if r.Some? then r.value.level else 0 }

  /** The route of a pair after a history of weekly volumes. */
  ghost function After(vols: seq<Option<real>>): Option<Route> {
    if vols == [] then None else Week(After(vols[..|vols| - 1]), vols[|vols| - 1])
  }

  /** Weeks of at least this volume since the route's record began. */
  ghost function Busy(vols: seq<Option<real>>, least: real): nat {
    if vols == [] then 0
    else
      var n := |vols| - 1;
      (if After(vols[..n]).None? then 0 else Busy(vols[..n], least)) +
      (if vols[n].Some? && vols[n].value >= least then 1 else 0)
  }

  /** What the weeks since its record began say about a route. */
  ghost predicate Earned(r: Route, vols: seq<Option<real>>) {
    && r.level <= 3
    && (r.level > 0 ==> r.dormant <= 1)
    && (r.level == 0 ==> r.dormant <= 2)
    && r.sustained <= Busy(vols, ESTABLISH)
    && (r.level >= 1 ==> Busy(vols, ESTABLISH) >= r.level + 1)
    && (r.level >= 2 ==> Busy(vols, FLOURISH) >= r.level - 1)
    && (r.level >= 3 ==> Busy(vols, LEGENDARY) >= r.level - 2)
  }

  /** On every history, a route of level k has had at least k + 1 weeks of four trades since it began, k - 1 of
      them with eight and k - 2 with sixteen, and never ends a week long dormant. */
  lemma {:induction false} RoutesAreEarned(vols: seq<Option<real>>)
    ensures After(vols).Some? ==> Earned(After(vols).value, vols)
  {
    if vols != [] {
      var n := |vols| - 1;
      RoutesAreEarned(vols[..n]);
      EarnedStep(After(vols[..n]), vols, n);
    }
  }

  lemma EarnedStep(r: Option<Route>, vols: seq<Option<real>>, n: nat)
    requires n == |vols| - 1 && r == After(vols[..n]) && (r.Some? ==> Earned(r.value, vols[..n]))
    ensures Week(r, vols[n]).Some? ==> Earned(Week(r, vols[n]).value, vols)
  {
  }

  /** A level moves by at most one a week. */
  lemma LevelMovesByOne(r: Option<Route>, vol: Option<real>)
    ensures LevelOf(r) - 1 <= LevelOf(Week(r, vol)) <= LevelOf(r) + 1
  {
  }

  /** Exactly when a route rises: the weeks need not be consecutive, only enough of them must be left. */
  lemma RisesIff(r: Route, vol: Option<real>)
    requires r.level <= 3
    ensures LevelOf(Week(Some(r), vol)) > r.level <==>
              r.level < 3 && r.sustained + 1 >= r.level + 2 && vol.Some? && vol.value >= Threshold(r.level)
  {
  }

  /** Exactly when a route falls: a second dormant week in a row. */
  lemma FallsIff(r: Route, vol: Option<real>)
    requires r.level > 0 && r.dormant <= 1
    ensures LevelOf(Week(Some(r), vol)) < r.level <==> r.dormant == 1 && (vol.None? || vol.value < DECAY)
  {
  }

  /** The file's header promises two consecutive weeks of four trades; four, three, four will do. */
  lemma ConsecutiveWeeksNotNeeded()
    ensures LevelOf(After([Some(4.0), Some(3.0), Some(4.0)])) == 1
  {
    var v1, v2 := [Some(4.0)], [Some(4.0), Some(3.0)];
    var v3 := [Some(4.0), Some(3.0), Some(4.0)];
    assert v1[..0] == [] && v2[..1] == v1 && v3[..2] == v2;
    assert After(v1) == Some(Route(0, 1, 0));
    assert After(v2) == Some(Route(0, 1, 0));
  }

  // ----- Idle routes ---------------------------------------------------------------------

  predicate Idle(vol: Option<real>) { vol.None? || vol.value < DECAY }

  /** Idle weeks a route has left. */
  function Life(r: Route): int {
    if r.level > 0 then 2 * r.level - r.dormant else 3 - r.dormant
  }

  ghost function From(r: Option<Route>, vols: seq<Option<real>>): Option<Route> {
    if vols == [] then r else Week(From(r, vols[..|vols| - 1]), vols[|vols| - 1])
  }

  lemma IdleWeek(r: Route, vol: Option<real>)
    requires Idle(vol) && r.level <= 3 && r.dormant <= if r.level > 0 then 1 else 2
    ensures Life(r) >= 1
    ensures if Life(r) == 1 then Week(Some(r), vol).None?
            else && Week(Some(r), vol).Some?
                 && Life(Week(Some(r), vol).value) == Life(r) - 1
                 && (var q := Week(Some(r), vol).value; q.level <= 3 && q.dormant <= if q.level > 0 then 1 else 2)
  {
  }

  /** An idle route lives exactly as long as its measure says: never shorter, never longer. */
  lemma {:induction false} IdleRouteVanishes(r: Route, vols: seq<Option<real>>)
    requires r.level <= 3 && r.dormant <= if r.level > 0 then 1 else 2
    requires forall k :: 0 <= k < |vols| ==> Idle(vols[k])
    ensures |vols| >= Life(r) ==> From(Some(r), vols).None?
    ensures |vols| < Life(r) ==>
              && From(Some(r), vols).Some?
              && Life(From(Some(r), vols).value) == Life(r) - |vols|
              && (var q := From(Some(r), vols).value; q.level <= 3 && q.dormant <= if q.level > 0 then 1 else 2)
  {
    if vols != [] {
      var n := |vols| - 1;
      IdleRouteVanishes(r, vols[..n]);
      var before := From(Some(r), vols[..n]);
      if before.Some? {
        IdleWeek(before.value, vols[n]);
      }
    }
  }

  // ----- All pairs -------------------------------------------------------------------------

  /** First pass over the week's trade. */
  method TradePass(routes: map<Key, Route>, tracker: map<Key, real>) returns (out: map<Key, Route>)
    ensures forall k: Key :: Get(out, k) == if k in tracker then Traded(Get(routes, k), tracker[k]) else Get(routes, k)
  {
    out := routes;
    var todo := tracker.Keys;
    while todo != {}
      invariant todo <= tracker.Keys
      invariant forall k: Key :: k in tracker && k !in todo ==> Get(out, k) == Traded(Get(routes, k), tracker[k])
      invariant forall k: Key :: k !in tracker || k in todo ==> Get(out, k) == Get(routes, k)
    {
      var k :| k in todo;
      assert Get(out, k) == Get(routes, k);
      var vol := tracker[k];
      if vol >= ESTABLISH {
        out := out[k := Grown(Get(out, k), vol)];
      } else if k in out {
        out := out[k := if vol < DECAY then Slept(out[k]) else out[k].(dormant := 0)];
      }
      todo := todo - {k};
    }
  }

  /** Second pass: routes without trade sleep, and long dormant ones are pruned. */
  method PrunePass(routes: map<Key, Route>, tracker: map<Key, real>) returns (out: map<Key, Route>)
    ensures forall k: Key :: Get(out, k) ==
              if k in routes then Pruned(if k in tracker then routes[k] else Slept(routes[k])) else None
  {
    out := routes;
    var todo := routes.Keys;
    while todo != {}
      invariant todo <= out.Keys <= routes.Keys
      invariant forall k: Key :: k in todo ==> out[k] == routes[k]
      invariant forall k: Key :: k in routes && k !in todo ==>
        Get(out, k) == Pruned(if k in tracker then routes[k] else Slept(routes[k]))
    {
      var k :| k in todo;
      var r := if k in tracker then out[k] else Slept(out[k]);
      out := if Pruned(r).Some? then out[k := Pruned(r).value] else out - {k};
      todo := todo - {k};
    }
  }

  ghost function VolumesOf(history: seq<map<Key, real>>, k: Key): seq<Option<real>> {
    seq(|history|, w requires 0 <= w < |history| => Get(history[w], k))
  }

  class RouteTable {
    var routes: map<Key, Route>
    ghost var history: seq<map<Key, real>>   // the weekly trackers so far

    /** Every route is what its pair's weekly volumes make it. */
    ghost predicate Valid()
      reads this
    {
      forall k: Key :: Get(routes, k) == After(VolumesOf(history, k))
    }

    constructor ()
      ensures Valid() && routes == map[] && history == []
    {
      routes, history := map[], [];
    }

    method ProcessTradeRoutes(tracker: map<Key, real>)
      requires Valid()
      modifies this
      ensures Valid() && history == old(history) + [tracker]
      ensures forall k: Key :: Get(routes, k) == Week(Get(old(routes), k), Get(tracker, k))
      ensures forall k :: k in routes ==> Earned(routes[k], VolumesOf(history, k))
    {
      var traded := TradePass(routes, tracker);
      var pruned := PrunePass(traded, tracker);
      forall k: Key ensures Get(pruned, k) == Week(Get(routes, k), Get(tracker, k)) {
        assert Get(traded, k) == if k in tracker then Traded(Get(routes, k), tracker[k]) else Get(routes, k);
      }
      routes, history := pruned, history + [tracker];
      forall k: Key ensures Get(routes, k) == After(VolumesOf(history, k)) {
        var vols := VolumesOf(history, k);
        assert vols[..|vols| - 1] == VolumesOf(old(history), k);
      }
      forall k | k in routes ensures Earned(routes[k], VolumesOf(history, k)) {
        RoutesAreEarned(VolumesOf(history, k));
        assert Get(routes, k) == After(VolumesOf(history, k));
      }
    }
  }
}
