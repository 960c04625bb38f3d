/** The bounded memory stream of internal/agents/memory.go. */
module MemoryStream {
  import opened Accounts

  const MAX_MEMORIES: nat := 50

  datatype Memory = Memory(tick: nat, content: string, importance: real)

  predicate IsVision(content: string) { "Vision: " <= content }

  /** An older vision fades when a new one comes. */
  function Faded(m: Memory): Memory {
    if IsVision(m.content) then m.(importance := m.importance * 0.8) else m
  }

  function FadeAll(ms: seq<Memory>): seq<Memory> {
    seq(|ms|, i requires 0 <= i < |ms| => Faded(ms[i]))
  }

  /** The first memory of least importance. */
  ghost predicate IsWeakest(ms: seq<Memory>, i: nat) {
    && i < |ms|
    && (forall j :: 0 <= j < |ms| ==> ms[i].importance <= ms[j].importance)
    && (forall j :: 0 <= j < i ==> ms[i].importance < ms[j].importance)
  }

  /** `after` is the stream with m added to it. */
  ghost predicate Added(before: seq<Memory>, m: Memory, after: seq<Memory>) {
    var ms := if IsVision(m.content) then FadeAll(before) else before;
    if |ms| < MAX_MEMORIES then after == ms + [m]
    else exists i: nat :: IsWeakest(ms, i) &&
           (after == if m.importance > ms[i].importance then ms[i := m] else ms)
  }

  lemma Replaced(before: seq<Memory>, m: Memory, ms: seq<Memory>, i: nat, after: seq<Memory>)
    requires ms == if IsVision(m.content) then FadeAll(before) else before
    requires |ms| >= MAX_MEMORIES && IsWeakest(ms, i)
    requires after == if m.importance > ms[i].importance then ms[i := m] else ms
    ensures Added(before, m, after)
  {
  }

  class Stream {
    var memories: seq<Memory>
    ghost var offered: seq<Memory>   // every memory so far

    /** Without visions the stream is what feeding it every memory in turn makes it. */
    ghost predicate Valid()
      reads this
    {
      NoVisions(offered) ==> Fed(offered, memories)
    }

    constructor ()
      ensures Valid() && memories == [] && offered == []
    {
      memories, offered := [], [];
    }

    method AddMemory(tick: nat, content: string, importance: real)
      requires Valid()
      modifies this
      ensures Added(old(memories), Memory(tick, content, importance), memories)
      ensures Valid() && offered == old(offered) + [Memory(tick, content, importance)]
      ensures NoVisions(offered) ==> HoldsBest(offered, memories)
    {
      hide Fed, HoldsBest;
      if IsVision(content) {
        for i := 0 to |memories|
          invariant |memories| == |old(memories)| && offered == old(offered)
          invariant forall j :: 0 <= j < |memories| ==> memories[j] == if j < i then Faded(old(memories)[j]) else old(memories)[j]
        {
          memories := memories[i := Faded(memories[i])];
        }
        assert memories == FadeAll(old(memories));
      }
      ghost var ms := memories;
      assert ms == if IsVision(content) then FadeAll(old(memories)) else old(memories);
      var m := Memory(tick, content, importance);
      offered := offered + [m];
      if |memories| < MAX_MEMORIES {
        memories := memories + [m];
        FedOn(old(offered), m, old(memories), memories);
        return;
      }
      var weakest := 0;
      for i := 1 to |memories|
        invariant weakest < i
        invariant forall j :: 0 <= j < i ==> memories[weakest].importance <= memories[j].importance
        invariant forall j :: 0 <= j < weakest ==> memories[weakest].importance < memories[j].importance
      {
        if memories[i].importance < memories[weakest].importance {
          weakest := i;
        }
      }
      assert IsWeakest(ms, weakest);
      if m.importance > memories[weakest].importance {
        memories := memories[weakest := m];
      }
      Replaced(old(memories), m, ms, weakest, memories);
      FedOn(old(offered), m, old(memories), memories);
    }
  }

  // ----- What a stream keeps -------------------------------------------------------------------

  /** A stream fed the memories of `offered` in turn, none of them a vision, may end as `kept`. */
  ghost predicate Fed(offered: seq<Memory>, kept: seq<Memory>)
    decreases |offered|
  {
    if offered == [] then kept == []
    else
      var n := |offered| - 1;
      && !IsVision(offered[n].content)
      && exists before :: Fed(offered[..n], before) && Added(before, offered[n], kept)
  }

  ghost predicate NoVisions(offered: seq<Memory>) {
    forall k :: 0 <= k < |offered| ==> !IsVision(offered[k].content)
  }

  lemma FedOn(offered: seq<Memory>, m: Memory, before: seq<Memory>, after: seq<Memory>)
    requires Added(before, m, after) && (NoVisions(offered) ==> Fed(offered, before))
    ensures NoVisions(offered + [m]) ==> Fed(offered + [m], after) && HoldsBest(offered + [m], after)
  {
    hide Added, IsVision, HoldsBest;
    var longer := offered + [m];
    if NoVisions(longer) {
      assert forall k :: 0 <= k < |offered| ==> longer[k] == offered[k];
      assert longer[|offered|] == m && longer[..|offered|] == offered;
      StreamHoldsBest(longer, after);
    }
  }

  /** Memories of importance above v. */
  ghost function Above(ms: seq<Memory>, v: real): nat {
    if ms == [] then 0
    else Above(ms[..|ms| - 1], v) + if ms[|ms| - 1].importance > v then 1 else 0
  }

  lemma AboveAppend(ms: seq<Memory>, m: Memory, v: real)
    ensures Above(ms + [m], v) == Above(ms, v) + if m.importance > v then 1 else 0
  {
    assert (ms + [m])[..|ms|] == ms;
  }

  lemma {:induction false} AboveUpdate(ms: seq<Memory>, i: nat, m: Memory, v: real)
    requires i < |ms|
    ensures Above(ms[i := m], v) ==
            Above(ms, v) - (if ms[i].importance > v then 1 else 0) + (if m.importance > v then 1 else 0)
  {
    var n := |ms| - 1;
    if i == n {
      assert ms[i := m][..n] == ms[..n];
    } else {
      assert ms[i := m][..n] == ms[..n][i := m];
      AboveUpdate(ms[..n], i, m, v);
    }
  }

  lemma {:induction false} AboveBounds(ms: seq<Memory>, v: real)
    ensures Above(ms, v) <= |ms|
    ensures (forall j :: 0 <= j < |ms| ==> ms[j].importance > v) <==> Above(ms, v) == |ms|
  {
    if ms != [] {
      AboveBounds(ms[..|ms| - 1], v);
    }
  }

  lemma NoneAbove(v: real)
    ensures Above([], v) == 0
  {
  }

  /** The stream holds genuine offers, as many as fit, and above every importance level as many as were
      ever offered there: its importances are the 50 largest. */
  ghost predicate HoldsBest(offered: seq<Memory>, kept: seq<Memory>) {
    && |kept| == Min(MAX_MEMORIES, |offered|)
    && multiset(kept) <= multiset(offered)
    && (forall v: real :: Above(kept, v) == Min(MAX_MEMORIES, Above(offered, v)))
  }

  /** One non-vision memory more, at one level. */
  lemma BestStep(offered: seq<Memory>, kept: seq<Memory>, m: Memory, after: seq<Memory>, v: real)
    requires |kept| == Min(MAX_MEMORIES, |offered|) && Above(kept, v) == Min(MAX_MEMORIES, Above(offered, v))
    requires !IsVision(m.content) && Added(kept, m, after)
    ensures Above(after, v) == Min(MAX_MEMORIES, Above(offered + [m], v))
  {
    AboveAppend(offered, m, v);
    AboveBounds(offered, v);
    AboveBounds(kept, v);
    if |kept| < MAX_MEMORIES {
      AboveAppend(kept, m, v);
    } else {
      var i: nat :| IsWeakest(kept, i) && (after == if m.importance > kept[i].importance then kept[i := m] else kept);
      assert IsWeakest(kept, i);
      AboveUpdate(kept, i, m, v);
    }
  }

  lemma KeptAreOffered(offered: seq<Memory>, kept: seq<Memory>, m: Memory, after: seq<Memory>)
    requires |kept| == Min(MAX_MEMORIES, |offered|) && multiset(kept) <= multiset(offered)
    requires !IsVision(m.content) && Added(kept, m, after)
    ensures |after| == Min(MAX_MEMORIES, |offered| + 1) && multiset(after) <= multiset(offered + [m])
  {
    assert multiset(offered + [m]) == multiset(offered) + multiset{m};
    if |kept| >= MAX_MEMORIES {
      var i: nat :| IsWeakest(kept, i) && (after == if m.importance > kept[i].importance then kept[i := m] else kept);
      assert IsWeakest(kept, i);
      assert multiset(kept[i := m]) == multiset(kept) - multiset{kept[i]} + multiset{m};
    }
  }

  /** After any sequence of non-vision memories the stream holds the best of them. */
  lemma {:induction false} StreamHoldsBest(offered: seq<Memory>, kept: seq<Memory>)
    requires Fed(offered, kept)
    ensures HoldsBest(offered, kept)
    decreases |offered|
  {
    hide Above, Added, IsVision;
    if offered == [] {
      forall v: real ensures Above(kept, v) == Above(offered, v) == 0 { NoneAbove(v); }
    } else {
      var n := |offered| - 1;
      var before :| Fed(offered[..n], before) && Added(before, offered[n], kept);
      StreamHoldsBest(offered[..n], before);
      assert offered == offered[..n] + [offered[n]];
      KeptAreOffered(offered[..n], before, offered[n], kept);
      forall v: real ensures Above(kept, v) == Min(MAX_MEMORIES, Above(offered, v)) {
        BestStep(offered[..n], before, offered[n], kept, v);
      }
    }
  }
}
