/** The per-address rate limiter of internal/api/ratelimit.go. Times and the window are in nanoseconds. */
module RateLimiter {
  import opened Accounts

  const SECOND: int := 1_000_000_000

  datatype Bucket = Bucket(tokens: int, lastReset: int)

  /** Limits: requests per window, and the window's length. */
  datatype Limits = Limits(maxRate: int, window: int) {
    /** The most one window's bucket ever admits: opening a bucket always succeeds. */
    function Cap(): nat { if maxRate > 1 then maxRate else 1 }

    predicate Expired(b: Bucket, now: int) { now - b.lastReset >= window }

    predicate Admits(b: Option<Bucket>, now: int) {
      b.None? || Expired(b.value, now) || b.value.tokens > 0
    }

    function Next(b: Option<Bucket>, now: int): Bucket {
      if b.None? || Expired(b.value, now) then Bucket(maxRate - 1, now)
      else if b.value.tokens > 0 then b.value.(tokens := b.value.tokens - 1)
      else b.value
    }

    function Swept(b: Option<Bucket>, now: int): Option<Bucket> {
      if b.Some? && now - b.value.lastReset > 2 * window then None else b
    }

    /** Whole seconds until the window resets, rounded up past it. */
    function RetryAfter(b: Option<Bucket>, now: int): int {
      if b.None? then 0
      else
        var remaining := window - (now - b.value.lastReset);
        if remaining < 0 then 0 else remaining / SECOND + 1
    }
  }

  /** After a refusal, waiting as long as told is enough for the next request to be admitted, and more than a
      second less never is. */
  lemma RetryAfterIsRight(l: Limits, b: Bucket, asked: int, later: int)
    requires asked <= later && !l.Admits(Some(b), asked)
    ensures later >= asked + l.RetryAfter(Some(b), asked) * SECOND ==> l.Admits(Some(b), later)
    ensures later < asked + (l.RetryAfter(Some(b), asked) - 1) * SECOND ==> !l.Admits(Some(b), later)
  {
    var remaining := l.window - (asked - b.lastReset);
    assert remaining == remaining / SECOND * SECOND + remaining % SECOND;
  }

  // ----- Traces of one address ---------------------------------------------------------------------

  /** What concerns one address: its own requests, and sweeps of the whole table. */
  datatype Event = Request(at: int) | Sweep(at: int)

  ghost predicate Monotone(trace: seq<Event>) {
    forall i, j :: 0 <= i <= j < |trace| ==> trace[i].at <= trace[j].at
  }

  /** The bucket after n events, with sweeps carried out or ignored. */
  ghost function After(l: Limits, trace: seq<Event>, n: nat, sweeping: bool): Option<Bucket>
    requires n <= |trace|
  {
    if n == 0 then None
    else
      var b := After(l, trace, n - 1, sweeping);
      match trace[n - 1]
      case Request(now) => Some(l.Next(b, now))
      case Sweep(now) => if sweeping then l.Swept(b, now) else b
  }

  ghost predicate Admitted(l: Limits, trace: seq<Event>, n: nat, sweeping: bool)
    requires n < |trace|
  {
    trace[n].Request? && l.Admits(After(l, trace, n, sweeping), trace[n].at)
  }

  /** A swept bucket differs from the unswept one only in being gone after it expired. */
  ghost predicate Alike(l: Limits, swept: Option<Bucket>, kept: Option<Bucket>, now: int) {
    swept == kept || (swept.None? && kept.Some? && l.Expired(kept.value, now))
  }

  lemma {:induction false} SweptIsAlike(l: Limits, trace: seq<Event>, n: nat)
    requires Monotone(trace) && n < |trace|
    ensures Alike(l, After(l, trace, n, true), After(l, trace, n, false), trace[n].at)
    ensures After(l, trace, n, false).Some? ==> After(l, trace, n, false).value.lastReset <= trace[n].at
  {
    if n > 0 {
      SweptIsAlike(l, trace, n - 1);
      assert trace[n - 1].at <= trace[n].at;
    }
  }

  /** Sweeping, whenever it happens, changes no answer. */
  lemma SweepsAreInvisible(l: Limits, trace: seq<Event>, n: nat)
    requires Monotone(trace) && n < |trace|
    ensures Admitted(l, trace, n, true) == Admitted(l, trace, n, false)
  {
    SweptIsAlike(l, trace, n);
  }

  // ----- How much gets through -----------------------------------------------------------------------

  predicate Within(l: Limits, lo: int, t: int) { lo <= t < lo + l.window }

  /** How many of the first n events are requests admitted in the half-open window that starts at lo. */
  ghost function InWindow(l: Limits, trace: seq<Event>, n: nat, lo: int): nat
    requires n <= |trace|
  {
    if n == 0 then 0
    else
      InWindow(l, trace, n - 1, lo) +
      if Admitted(l, trace, n - 1, true) && Within(l, lo, trace[n - 1].at) then 1 else 0
  }

  /** How many requests a bucket has admitted so far. */
  function Used(l: Limits, b: Bucket): int {
    if l.maxRate >= 1 then l.maxRate - b.tokens else 1
  }

  /** What the number admitted up to `now` in the window from lo may be, given the bucket. */
  ghost predicate Throttled(l: Limits, b: Option<Bucket>, admitted: nat, now: int, lo: int) {
    && (b.None? || lo > now ==> admitted == 0)
    && (b.Some? ==>
      && b.value.lastReset <= now
      && 1 <= Used(l, b.value) <= l.Cap()
      && (l.maxRate < 1 ==> b.value.tokens < 0)
      && (b.value.lastReset < lo ==> admitted < Used(l, b.value))
      && (Within(l, lo, b.value.lastReset) ==> admitted < Used(l, b.value) + l.Cap()))
    && admitted < 2 * l.Cap()
  }

  lemma ThrottledStep(l: Limits, b: Option<Bucket>, admitted: nat, now: int, t: int, lo: int)
    requires now <= t && Throttled(l, b, admitted, now, lo)
    ensures Throttled(l, Some(l.Next(b, t)), admitted + if l.Admits(b, t) && Within(l, lo, t) then 1 else 0, t, lo)
  {
  }

  lemma {:induction false} RequestsThrottled(l: Limits, trace: seq<Event>, n: nat, lo: int)
    requires Monotone(trace) && 0 < n <= |trace|
    ensures Throttled(l, After(l, trace, n, false), InWindow(l, trace, n, lo), trace[n - 1].at, lo)
  {
    hide Throttled, Limits.Next, Limits.Admits;
    var t := trace[n - 1].at;
    var b := After(l, trace, n - 1, false);
    var was := if n == 1 then t else trace[n - 2].at;
    assert Throttled(l, b, InWindow(l, trace, n - 1, lo), was, lo) by {
      if n == 1 {
        FreshIsThrottled(l, t, lo);
      } else {
        RequestsThrottled(l, trace, n - 1, lo);
      }
    }
    if trace[n - 1].Request? {
      SweepsAreInvisible(l, trace, n - 1);
      ThrottledStep(l, b, InWindow(l, trace, n - 1, lo), was, t, lo);
    } else {
      ThrottledLater(l, b, InWindow(l, trace, n - 1, lo), was, t, lo);
    }
  }

  lemma FreshIsThrottled(l: Limits, now: int, lo: int)
    ensures Throttled(l, None, 0, now, lo)
  {
  }

  lemma ThrottledLater(l: Limits, b: Option<Bucket>, admitted: nat, now: int, t: int, lo: int)
    requires now <= t && Throttled(l, b, admitted, now, lo)
    ensures Throttled(l, b, admitted, t, lo)
  {
  }

  /** On every trace, with sweeps anywhere, an interval of window length admits fewer than 2 * Cap requests of
      one address. */
  lemma RateIsBounded(l: Limits, trace: seq<Event>, lo: int)
    requires Monotone(trace)
    ensures InWindow(l, trace, |trace|, lo) <= 2 * l.Cap() - 1
  {
    if trace != [] {
      RequestsThrottled(l, trace, |trace|, lo);
    }
  }

  // ----- The bound cannot be lowered -----------------------------------------------------------------

  /** One request at 0, the rest of that bucket just before the window ends, a whole bucket as it ends. */
  function Burst(l: Limits): seq<Event>
    requires l.maxRate >= 1
  {
    seq(2 * l.maxRate, i => Request(if i == 0 then 0 else if i < l.maxRate then l.window - 1 else l.window))
  }

  lemma {:induction false} BurstBuckets(l: Limits, n: nat)
    requires l.maxRate >= 1 && l.window >= 2 && n <= 2 * l.maxRate
    ensures After(l, Burst(l), n, true) ==
            if n == 0 then None
            else if n <= l.maxRate then Some(Bucket(l.maxRate - n, 0)) else Some(Bucket(2 * l.maxRate - n, l.window))
  {
    if n > 0 {
      BurstBuckets(l, n - 1);
    }
  }

  lemma {:induction false} BurstProgress(l: Limits, n: nat)
    requires l.maxRate >= 1 && l.window >= 2 && n <= 2 * l.maxRate
    ensures InWindow(l, Burst(l), n, l.window - 1) == if n == 0 then 0 else n - 1
  {
    hide After;
    if n > 0 {
      BurstProgress(l, n - 1);
      BurstBuckets(l, n - 1);
    }
  }

  /** For every limit and window the bound is reached by some trace. */
  lemma BoundIsReached(l: Limits)
    requires l.maxRate >= 1 && l.window >= 2
    ensures Monotone(Burst(l)) && InWindow(l, Burst(l), |Burst(l)|, l.window - 1) == 2 * l.Cap() - 1
  {
    BurstProgress(l, 2 * l.maxRate);
  }

  // ----- The table of all addresses ------------------------------------------------------------------

  datatype Call = Asked(ip: string, at: int) | Cleaned(at: int)

  ghost predicate InOrder(history: seq<Call>) {
    forall i, j :: 0 <= i <= j < |history| ==> history[i].at <= history[j].at
  }

  /** What the calls so far mean for one address. */
  ghost function TraceOf(history: seq<Call>, ip: string): seq<Event> {
    if history == [] then []
    else
      var n := |history| - 1;
      TraceOf(history[..n], ip) + EventsOf(history[n], ip)
  }

  ghost function EventsOf(call: Call, ip: string): seq<Event> {
    match call
    case Asked(other, at) => if other == ip then [Request(at)] else []
    case Cleaned(at) => [Sweep(at)]
  }

  lemma {:induction false} TraceInOrder(history: seq<Call>, ip: string)
    requires InOrder(history)
    ensures Monotone(TraceOf(history, ip))
    ensures forall k :: 0 <= k < |TraceOf(history, ip)| ==> TraceOf(history, ip)[k].at <= history[|history| - 1].at
    ensures history == [] ==> TraceOf(history, ip) == []
  {
    hide Monotone;
    MonotoneNone();
    if history != [] {
      var n := |history| - 1;
      var front := history[..n];
      assert InOrder(front) && forall k :: 0 <= k < n ==> front[k] == history[k];
      TraceInOrder(front, ip);
      MonotoneAppend(TraceOf(front, ip), EventsOf(history[n], ip), if n > 0 then history[n - 1].at else history[n].at, history[n].at);
    }
  }

  lemma MonotoneNone()
    ensures Monotone([])
  {
  }

  lemma MonotoneAppend(trace: seq<Event>, more: seq<Event>, was: int, now: int)
    requires Monotone(trace) && |more| <= 1 && was <= now
    requires forall k :: 0 <= k < |trace| ==> trace[k].at <= was
    requires forall k :: 0 <= k < |more| ==> more[k].at == now
    ensures Monotone(trace + more) && forall k :: 0 <= k < |trace + more| ==> (trace + more)[k].at <= now
  {
  }

  lemma {:induction false} AfterAppend(l: Limits, trace: seq<Event>, more: seq<Event>, n: nat, sweeping: bool)
    requires n <= |trace|
    ensures After(l, trace + more, n, sweeping) == After(l, trace, n, sweeping)
  {
    if n > 0 {
      AfterAppend(l, trace, more, n - 1, sweeping);
    }
  }

  ghost function Called(l: Limits, b: Option<Bucket>, call: Call, ip: string): Option<Bucket> {
    match call
    case Asked(other, now) => if other == ip then Some(l.Next(b, now)) else b
    case Cleaned(now) => l.Swept(b, now)
  }

  /** The bucket after one more call. */
  lemma AfterCall(l: Limits, history: seq<Call>, call: Call, ip: string)
    ensures var trace, longer := TraceOf(history, ip), TraceOf(history + [call], ip);
            var was := After(l, trace, |trace|, true);
            && longer == trace + EventsOf(call, ip)
            && After(l, longer, |longer|, true) == Called(l, was, call, ip)
            && (call.Asked? && call.ip == ip ==>
                  |longer| == |trace| + 1 && Admitted(l, longer, |trace|, true) == l.Admits(was, call.at))
  {
    assert (history + [call])[..|history|] == history;
    var trace := TraceOf(history, ip);
    AfterAppend(l, trace, EventsOf(call, ip), |trace|, true);
  }

  class Limiter {
    const limits: Limits
    var buckets: map<string, Bucket>
    ghost var history: seq<Call>   // every call so far

    function BucketOf(ip: string): Option<Bucket>
      reads this
    {
      if ip in buckets then Some(buckets[ip]) else None
    }

    /** Every bucket is what the calls that concern its address make it. */
    ghost predicate Valid()
      reads this
    {
      forall ip: string :: BucketOf(ip) == After(limits, TraceOf(history, ip), |TraceOf(history, ip)|, true)
    }

    constructor (limits: Limits)
      ensures Valid() && this.limits == limits && buckets == map[] && history == []
    {
      this.limits, buckets, history := limits, map[], [];
    }

    /** With a clock that never runs backwards the answer is the one a table never swept would give, and no window
        ever admits as many as twice the limit. */
    method Allow(ip: string, now: int) returns (ok: bool)
      requires Valid()
      modifies this
      ensures Valid() && history == old(history) + [Asked(ip, now)]
      ensures ok == limits.Admits(old(BucketOf(ip)), now)
      ensures buckets == old(buckets)[ip := limits.Next(old(BucketOf(ip)), now)]
      ensures var trace := TraceOf(history, ip);
              InOrder(history) ==>
                && |trace| > 0 && ok == Admitted(limits, trace, |trace| - 1, false)
                && forall lo :: InWindow(limits, trace, |trace|, lo) <= 2 * limits.Cap() - 1
    {
      hide After, InWindow, TraceOf, Monotone, InOrder;
      ghost var was := BucketOf(ip);
      if ip !in buckets || now - buckets[ip].lastReset >= limits.window {
        buckets := buckets[ip := Bucket(limits.maxRate - 1, now)];
        ok := true;
      } else if buckets[ip].tokens > 0 {
        buckets := buckets[ip := buckets[ip].(tokens := buckets[ip].tokens - 1)];
        ok := true;
      } else {
        assert buckets == buckets[ip := buckets[ip]];
        ok := false;
      }
      history := history + [Asked(ip, now)];
      forall other: string ensures BucketOf(other) == After(limits, TraceOf(history, other), |TraceOf(history, other)|, true) {
        AfterCall(limits, old(history), Asked(ip, now), other);
      }
      AfterCall(limits, old(history), Asked(ip, now), ip);
      if InOrder(history) {
        TraceInOrder(history, ip);
        ghost var trace := TraceOf(history, ip);
        SweepsAreInvisible(limits, trace, |trace| - 1);
        forall lo ensures InWindow(limits, trace, |trace|, lo) <= 2 * limits.Cap() - 1 {
          RateIsBounded(limits, trace, lo);
        }
      }
    }

    method Cleanup(now: int)
      requires Valid()
      modifies this
      ensures Valid() && history == old(history) + [Cleaned(now)]
      ensures forall ip: string :: BucketOf(ip) == limits.Swept(old(BucketOf(ip)), now)
    {
      hide After, TraceOf;
      var todo := buckets.Keys;
      while todo != {}
        invariant history == old(history)
        invariant todo <= buckets.Keys <= old(buckets.Keys)
        invariant forall ip :: ip in todo ==> buckets[ip] == old(buckets)[ip]
        invariant forall ip :: ip in old(buckets) && ip !in todo ==> BucketOf(ip) == limits.Swept(old(BucketOf(ip)), now)
      {
        var ip :| ip in todo;
        if now - buckets[ip].lastReset > 2 * limits.window {
          buckets := buckets - {ip};
        }
        todo := todo - {ip};
      }
      history := history + [Cleaned(now)];
      forall ip: string ensures BucketOf(ip) == After(limits, TraceOf(history, ip), |TraceOf(history, ip)|, true) {
        AfterCall(limits, old(history), Cleaned(now), ip);
      }
    }
  }
}
