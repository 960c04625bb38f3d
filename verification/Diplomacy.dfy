/** Agreements between settlement pairs: internal/engine/diplomacy.go. */
module Diplomacy {
  import opened Accounts
  import opened Phi
  import opened Pairs

  /** 0: tracked but not yet formed, 1: trade pact, 2: non-aggression pact, 3: alliance. */
  type Kind = k: nat | k <= 3

  datatype Agreement = Agreement(kind: Kind, sustained: nat)

  function FormThreshold(t: Kind): real {
    if t == 0 then 0.0 else if t == 1 then PSYCHE else if t == 2 then MATTER else PSYCHE + MATTER
  }

  function FormWeeks(t: Kind): nat { if t == 0 then 0 else t + 1 }

  function DissolveThreshold(t: Kind): real {
    if t == 0 then 0.0 else if t == 1 then AGNOSIS else if t == 2 then PSYCHE else MATTER
  }

  predicate Qualifies(t: Kind, sentiment: real, sustained: nat) {
    sentiment >= FormThreshold(t) && sustained >= FormWeeks(t)
  }

  /** The highest agreement a pair qualifies for, found by trying the highest first. */
  method HighestQualified(sentiment: real, sustained: nat) returns (best: Kind)
    ensures best == Highest(sentiment, sustained)
  {
    var t: int := 3;
    while t >= 1
      invariant 0 <= t <= 3
      invariant forall u: Kind :: u > t ==> !Qualifies(u, sentiment, sustained)
    {
      if Qualifies(t, sentiment, sustained) { return t; }
      t := t - 1;
    }
    return 0;
  }

  function Highest(sentiment: real, sustained: nat): (t: Kind)
    ensures t > 0 ==> Qualifies(t, sentiment, sustained)
    ensures forall u: Kind :: u > t ==> !Qualifies(u, sentiment, sustained)
  {
    if Qualifies(3, sentiment, sustained) then 3
    else if Qualifies(2, sentiment, sustained) then 2
    else if Qualifies(1, sentiment, sustained) then 1 else 0
  }

  /** A week at or above Psyche. */
  function Warmed(a: Option<Agreement>, sentiment: real): Agreement {
    if a.None? then Agreement(0, 1)
    else
      var w := a.value.sustained + 1;
      var t := Highest(sentiment, w);
      Agreement(if a.value.kind < t then t else a.value.kind, w)
  }

  /** A week below Psyche. */
  function Cooled(a: Agreement, sentiment: real): Option<Agreement> {
    if a.kind > 0 && sentiment < DissolveThreshold(a.kind) then
      if a.kind == 1 then None else Some(Agreement(a.kind - 1, 0))
    else if a.kind == 0 then
      if sentiment < AGNOSIS then None
      else Some(a.(sustained := if a.sustained > 0 then a.sustained - 1 else 0))
    else Some(a)
  }

  /** One week of one pair; no sentiment means the relation no longer exists. */
  function Week(a: Option<Agreement>, sentiment: Option<real>): Option<Agreement> {
    if sentiment.None? then None
    else if sentiment.value >= PSYCHE then Some(Warmed(a, sentiment.value))
    else if a.None? then None
    else Cooled(a.value, sentiment.value)
  }

  function KindOf(a: Option<Agreement>): Kind { if a.Some? then a.value.kind else 0 }

  // ----- Single weeks ------------------------------------------------------------------------

  /** While the relation lasts an agreement drops at most one level a week, and exactly when the sentiment is below
      Psyche and below the level's own threshold. */
  lemma DropsIff(a: Agreement, sentiment: real)
    ensures KindOf(Week(Some(a), Some(sentiment))) >= a.kind - 1
    ensures KindOf(Week(Some(a), Some(sentiment))) < a.kind <==>
              a.kind > 0 && sentiment < PSYCHE && sentiment < DissolveThreshold(a.kind)
  {
  }

  /** An alliance is documented to dissolve below Matter, but falls exactly below Psyche. */
  lemma AllianceFallsIff(a: Agreement, sentiment: real)
    requires a.kind == 3
    ensures KindOf(Week(Some(a), Some(sentiment))) < 3 <==> sentiment < PSYCHE
    ensures KindOf(Week(Some(a), Some(0.5))) == 3 && 0.5 < DissolveThreshold(3)
  {
    DropsIff(a, sentiment);
    DropsIff(a, 0.5);
  }

  // ----- Runs --------------------------------------------------------------------------------

  ghost function After(run: seq<Option<real>>): Option<Agreement> {
    if run == [] then None else Week(After(run[..|run| - 1]), run[|run| - 1])
  }

  /** Weeks at or above Psyche since the record began or was last downgraded. */
  ghost function WarmWeeks(run: seq<Option<real>>): nat {
    if run == [] then 0
    else
      var n := |run| - 1;
      var before, now := After(run[..n]), After(run);
      if now.None? || KindOf(now) < KindOf(before) then 0
      else (if before.None? then 0 else WarmWeeks(run[..n])) + (if run[n].Some? && run[n].value >= PSYCHE then 1 else 0)
  }

  lemma {:induction false} SustainedIsWarm(run: seq<Option<real>>)
    ensures After(run).Some? ==> After(run).value.sustained <= WarmWeeks(run)
  {
    if run != [] {
      SustainedIsWarm(run[..|run| - 1]);
    }
  }

  /** Rising to level t takes at least t + 1 warm weeks since the record began or was last downgraded, and a
      sentiment at the level's threshold in the week itself. */
  lemma RisingIsEarned(run: seq<Option<real>>, sentiment: Option<real>)
    requires KindOf(After(run + [sentiment])) > KindOf(After(run))
    ensures sentiment.Some? && sentiment.value >= FormThreshold(KindOf(After(run + [sentiment])))
    ensures WarmWeeks(run + [sentiment]) >= FormWeeks(KindOf(After(run + [sentiment])))
  {
    assert (run + [sentiment])[..|run|] == run;
    SustainedIsWarm(run + [sentiment]);
  }

  ghost function From(a: Option<Agreement>, run: seq<Option<real>>): Option<Agreement> {
    if run == [] then a else Week(From(a, run[..|run| - 1]), run[|run| - 1])
  }

  /** Weeks below Psyche. */
  ghost function ColdWeeks(run: seq<Option<real>>): nat {
    if run == [] then 0
    else
      var n := |run| - 1;
      ColdWeeks(run[..n]) + if run[n].Some? && run[n].value < PSYCHE then 1 else 0
  }

  /** While the relation lasts an agreement loses no more levels than there are weeks below Psyche. */
  lemma {:induction false} DropsAreCold(a: Option<Agreement>, run: seq<Option<real>>)
    requires forall k :: 0 <= k < |run| ==> run[k].Some?
    ensures KindOf(From(a, run)) + ColdWeeks(run) >= KindOf(a)
  {
    if run != [] {
      var n := |run| - 1;
      DropsAreCold(a, run[..n]);
      var before := From(a, run[..n]);
      if before.Some? {
        DropsIff(before.value, run[n].value);
      }
    }
  }

  /** With sentiments capped at 1 no alliance is reached without a week at the cap. */
  lemma {:induction false} AllianceNeedsTheCap(a: Option<Agreement>, run: seq<Option<real>>)
    requires forall k :: 0 <= k < |run| ==> run[k].None? || run[k].value <= 1.0
    requires KindOf(a) < 3 && KindOf(From(a, run)) == 3
    ensures Some(1.0) in run
  {
    var n := |run| - 1;
    if KindOf(From(a, run[..n])) == 3 {
      AllianceNeedsTheCap(a, run[..n]);
    } else {
      assert run[n] == Some(1.0);
    }
  }

  /** Hysteresis: while sentiments stay between Agnosis and Psyche nothing forms, higher agreements come down a level
      a week to a trade pact, and a trade pact does not change at all. */
  lemma {:induction false} PactHolds(a: Option<Agreement>, run: seq<Option<real>>)
    requires forall k :: 0 <= k < |run| ==> run[k].Some? && AGNOSIS <= run[k].value < PSYCHE
    ensures var k := KindOf(a);
            KindOf(From(a, run)) == if k == 0 then 0 else if k <= 1 + |run| then 1 else k - |run|
    ensures KindOf(a) == 1 ==> From(a, run) == a
  {
    if run != [] {
      PactHolds(a, run[..|run| - 1]);
    }
  }

  /** Under sentiments below Agnosis an agreement of level t is gone after exactly t weeks. */
  lemma {:induction false} ColdDissolves(a: Agreement, run: seq<Option<real>>)
    requires forall k :: 0 <= k < |run| ==> run[k].Some? && run[k].value < AGNOSIS
    ensures |run| >= 1 && |run| >= a.kind ==> From(Some(a), run).None?
    ensures |run| < a.kind ==> From(Some(a), run).Some? && KindOf(From(Some(a), run)) == a.kind - |run|
  {
    if run != [] {
      ColdDissolves(a, run[..|run| - 1]);
    }
  }

  // ----- All pairs -----------------------------------------------------------------------------

  /** First pass: every existing relation. */
  method RelationPass(agreements: map<Key, Agreement>, relations: map<Key, real>) returns (out: map<Key, Agreement>)
    ensures forall k: Key :: k in relations ==> Get(out, k) == Week(Get(agreements, k), Some(relations[k]))
    ensures forall k: Key :: k !in relations ==> Get(out, k) == Get(agreements, k)
  {
    hide Highest;
    out := agreements;
    var todo := relations.Keys;
    while todo != {}
      invariant todo <= relations.Keys
      invariant forall k: Key :: k in relations && k !in todo ==> Get(out, k) == Week(Get(agreements, k), Some(relations[k]))
      invariant forall k: Key :: k !in relations || k in todo ==> Get(out, k) == Get(agreements, k)
    {
      var k :| k in todo;
      assert Get(out, k) == Get(agreements, k);
      var s := relations[k];
      if s >= PSYCHE {
        if k !in out {
          out := out[k := Agreement(0, 1)];
        } else {
          var t := HighestQualified(s, out[k].sustained + 1);
          out := out[k := Agreement(if out[k].kind < t then t else out[k].kind, out[k].sustained + 1)];
        }
      } else if k in out {
        var c := Cooled(out[k], s);
        out := if c.Some? then out[k := c.value] else out - {k};
      }
      todo := todo - {k};
    }
  }

  ghost function SentimentsOf(history: seq<map<Key, real>>, k: Key): seq<Option<real>> {
    seq(|history|, w requires 0 <= w < |history| => Get(history[w], k))
  }

  lemma EndsWithRelation(a: Option<Agreement>)
    ensures Week(a, None) == None
  {
  }

  lemma AfterLast(run: seq<Option<real>>)
    requires run != []
    ensures After(run) == Week(After(run[..|run| - 1]), run[|run| - 1])
  {
  }

  class Chancery {
    var agreements: map<Key, Agreement>
    ghost var history: seq<map<Key, real>>   // the relations of each week so far

    /** Every agreement is what its pair's weekly sentiments make it. */
    ghost predicate Valid()
      reads this
    {
      forall k: Key :: Get(agreements, k) == After(SentimentsOf(history, k))
    }

    constructor ()
      ensures Valid() && agreements == map[] && history == []
    {
      agreements, history := map[], [];
    }

    method ProcessDiplomacy(relations: map<Key, real>)
      requires Valid()
      modifies this
      ensures Valid() && history == old(history) + [relations]
      ensures forall k: Key :: Get(agreements, k) == Week(Get(old(agreements), k), Get(relations, k))
      ensures forall k: Key :: k in agreements ==> agreements[k].sustained <= WarmWeeks(SentimentsOf(history, k))
      ensures forall k: Key :: KindOf(Get(agreements, k)) > KindOf(Get(old(agreements), k)) ==>
                && k in relations && relations[k] >= FormThreshold(KindOf(Get(agreements, k)))
                && WarmWeeks(SentimentsOf(history, k)) >= FormWeeks(KindOf(Get(agreements, k)))
    {
      hide Week, WarmWeeks, After, KindOf, FormThreshold, FormWeeks;
      var out := RelationPass(agreements, relations);
      var kept := map k | k in out && k in relations :: out[k];
      forall k: Key ensures Get(kept, k) == Week(Get(agreements, k), Get(relations, k)) {
        if k in relations { assert Get(out, k) == Week(Get(agreements, k), Some(relations[k])); }
        EndsWithRelation(Get(agreements, k));
      }
      agreements, history := kept, history + [relations];
      forall k: Key ensures Get(agreements, k) == After(SentimentsOf(history, k)) {
        var run := SentimentsOf(history, k);
        assert run[..|run| - 1] == SentimentsOf(old(history), k);
        AfterLast(run);
      }
      forall k: Key
        ensures k in agreements ==> agreements[k].sustained <= WarmWeeks(SentimentsOf(history, k))
        ensures KindOf(Get(agreements, k)) > KindOf(Get(old(agreements), k)) ==>
                  && k in relations && relations[k] >= FormThreshold(KindOf(Get(agreements, k)))
                  && WarmWeeks(SentimentsOf(history, k)) >= FormWeeks(KindOf(Get(agreements, k)))
      {
        assert history[..|history| - 1] == old(history);
        Earned(k, old(agreements), relations);
      }
    }

    /** The agreement of a pair is earned by the history that has just been extended. */
    lemma Earned(k: Key, before: map<Key, Agreement>, relations: map<Key, real>)
      requires Valid() && history != [] && history[|history| - 1] == relations
      requires Get(before, k) == After(SentimentsOf(history[..|history| - 1], k))
      ensures k in agreements ==> agreements[k].sustained <= WarmWeeks(SentimentsOf(history, k))
      ensures KindOf(Get(agreements, k)) > KindOf(Get(before, k)) ==>
                && k in relations && relations[k] >= FormThreshold(KindOf(Get(agreements, k)))
                && WarmWeeks(SentimentsOf(history, k)) >= FormWeeks(KindOf(Get(agreements, k)))
    {
      hide Highest, Cooled, Warmed, WarmWeeks, After;
      var n := |history| - 1;
      var run, front := SentimentsOf(history, k), SentimentsOf(history[..n], k);
      SustainedIsWarm(run);
      assert run == front + [Get(relations, k)];
      assert Get(agreements, k) == After(run);
      if KindOf(After(run)) > KindOf(After(front)) {
        RisingIsEarned(front, Get(relations, k));
      }
    }
  }
}
