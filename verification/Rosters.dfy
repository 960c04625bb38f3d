/** Lists of members: filtering them, and counting them. */
module Rosters {
  import opened Accounts

  /** The list without those who left, in the same order. */
  method Without(list: seq<nat>, gone: seq<nat>) returns (rest: seq<nat>)
    ensures rest == Keep(list, gone)
  {
    rest := [];
    for k := 0 to |list|
      invariant rest == Keep(list[..k], gone)
    {
      assert list[..k + 1][..k] == list[..k];
      if list[k] !in gone { rest := rest + [list[k]]; }
    }
    assert list[..|list|] == list;
  }

  function Keep(list: seq<nat>, gone: seq<nat>): seq<nat> {
    if list == [] then []
    else
      var n := |list| - 1;
      Keep(list[..n], gone) + if list[n] in gone then [] else [list[n]]
  }

  lemma {:induction false} KeepMembers(list: seq<nat>, gone: seq<nat>)
    ensures forall x :: x in Keep(list, gone) <==> x in list && x !in gone
    ensures Distinct(list) ==> Distinct(Keep(list, gone))
  {
    if list != [] {
      var n := |list| - 1;
      KeepMembers(list[..n], gone);
      assert list == list[..n] + [list[n]];
    }
  }

  ghost function Members(list: seq<nat>): set<nat> { set x | x in list }

  lemma {:induction false} DistinctSize(list: seq<nat>)
    requires Distinct(list)
    ensures |Members(list)| == |list|
  {
    if list != [] {
      var n := |list| - 1;
      DistinctSize(list[..n]);
      assert list == list[..n] + [list[n]];
      assert Members(list) == Members(list[..n]) + {list[n]};
    }
  }

  lemma DistinctConcat(s: seq<nat>, t: seq<nat>)
    requires Distinct(s) && Distinct(t) && forall x :: x in t ==> x !in s
    ensures Distinct(s + t)
  {
    assert forall j :: 0 <= j < |t| ==> t[j] in t;
  }

  lemma OccursOnce(list: seq<nat>, x: nat)
    requires Distinct(list) && x in list
    ensures multiset(list)[x] == 1
  {
    var k :| 0 <= k < |list| && list[k] == x;
    assert list == list[..k] + [x] + list[k + 1..];
    assert x !in list[..k] && x !in list[k + 1..];
  }

  function Inserted(list: seq<nat>, p: nat, x: nat): seq<nat>
    requires p <= |list|
  {
    list[..p] + [x] + list[p..]
  }

  lemma InsertedAt(list: seq<nat>, p: nat, x: nat)
    requires p <= |list|
    ensures |Inserted(list, p, x)| == |list| + 1
    ensures forall k :: 0 <= k <= |list| ==>
              Inserted(list, p, x)[k] == if k < p then list[k] else if k == p then x else list[k - 1]
  {
  }

  lemma InsertedPermutes(list: seq<nat>, p: nat, x: nat)
    requires p <= |list|
    ensures multiset(Inserted(list, p, x)) == multiset(list) + multiset{x}
  {
    assert list == list[..p] + list[p..];
  }

  lemma InsertedDistinct(list: seq<nat>, p: nat, x: nat)
    requires p <= |list| && Distinct(list) && x !in list
    ensures Distinct(Inserted(list, p, x))
    ensures forall y :: y in Inserted(list, p, x) <==> y in list || y == x
  {
    assert list == list[..p] + list[p..];
  }
}
