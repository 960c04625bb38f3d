/** Wealth inequality: GiniCoefficient and WealthDistribution of internal/engine/simulation.go. */
module Inequality {
  import opened Accounts
  import opened Rosters

  // ----- Sums and permutations ---------------------------------------------------------------

  function Without<T>(t: seq<T>, k: nat): seq<T>
    requires k < |t|
  {
    t[..k] + t[k + 1..]
  }

  lemma {:induction false} SumWithout<T>(t: seq<T>, k: nat, n: nat, f: T -> nat)
    requires k < |t| && n < |t|
    ensures if n <= k then SumTo(Without(t, k), n, f) == SumTo(t, n, f)
            else SumTo(Without(t, k), n, f) + f(t[k]) == SumTo(t, n + 1, f)
  {
    if n > 0 {
      SumWithout(t, k, n - 1, f);
    }
  }

  lemma DropOne<T>(t: seq<T>, k: nat)
    requires k < |t|
    ensures multiset(Without(t, k)) == multiset(t) - multiset{t[k]}
  {
    assert t == t[..k] + [t[k]] + t[k + 1..];
  }

  lemma TotalWithout<T>(t: seq<T>, k: nat, f: T -> nat)
    requires k < |t|
    ensures Total(Without(t, k), f) + f(t[k]) == Total(t, f)
  {
    SumWithout(t, k, |t| - 1, f);
  }

  /** A sum does not depend on the order of its terms. */
  lemma {:induction false} TotalPermutes<T>(s: seq<T>, t: seq<T>, f: T -> nat)
    requires multiset(s) == multiset(t)
    ensures Total(s, f) == Total(t, f)
    decreases |s|
  {
    SameSize(s, t);
    if s != [] {
      hide SumTo;
      assert s[0] in multiset(t);
      var k :| 0 <= k < |t| && t[k] == s[0];
      DropOne(s, 0);
      DropOne(t, k);
      TotalPermutes(Without(s, 0), Without(t, k), f);
      TotalWithout(s, 0, f);
      TotalWithout(t, k, f);
    }
  }

  lemma SameSize<T>(s: seq<T>, t: seq<T>)
    requires multiset(s) == multiset(t)
    ensures |s| == |t|
  {
    assert |multiset(s)| == |s| && |multiset(t)| == |t|;
  }

  // ----- The pairwise definition -----------------------------------------------------------------

  function AbsDiff(x: nat): nat -> nat { (y: nat) => if x < y then y - x else x - y }

  /** Distance of x to the first c entries. */
  function Spread(s: seq<nat>, c: nat): nat -> nat {
    (x: nat) => if c <= |s| then SumTo(s, c, AbsDiff(x)) else 0
  }

  /** The sum of |s[i] - s[j]| over i < r and j < c. */
  ghost function Pairs(s: seq<nat>, r: nat, c: nat): nat
    requires r <= |s| && c <= |s|
  {
    SumTo(s, r, Spread(s, c))
  }

  /** Over all ordered pairs. */
  ghost function PairSum(s: seq<nat>): nat { Pairs(s, |s|, |s|) }

  /** Half the mean difference between two purses, relative to the mean purse. */
  ghost function PairwiseGini(s: seq<nat>): real {
    if |s| < 2 || Total(s, Same) == 0 then 0.0
    else PairQuotient(PairSum(s), |s|, Total(s, Same))
  }

  function PairQuotient(p: nat, n: nat, total: nat): real
    requires n > 0 && total > 0
  {
    PairReal(p as real, n as real, total as real)
  }

  function PairReal(p: real, n: real, total: real): real
    requires n > 0.0 && total > 0.0
  {
    p / (2.0 * n * total)
  }

  lemma {:induction false} SumToPointwise<T>(s: seq<T>, n: nat, f: T -> nat, g: T -> nat)
    requires n <= |s| && forall k :: 0 <= k < n ==> f(s[k]) == g(s[k])
    ensures SumTo(s, n, f) == SumTo(s, n, g)
  {
    if n > 0 {
      SumToPointwise(s, n - 1, f, g);
    }
  }

  lemma PairSumPermutes(s: seq<nat>, t: seq<nat>)
    requires multiset(s) == multiset(t)
    ensures PairSum(s) == PairSum(t)
  {
    SameSize(s, t);
    forall x: nat ensures Spread(s, |s|)(x) == Spread(t, |t|)(x) { TotalPermutes(s, t, AbsDiff(x)); }
    SumToPointwise(s, |s|, Spread(s, |s|), Spread(t, |t|));
    TotalPermutes(s, t, Spread(t, |t|));
  }

  lemma {:induction false} PairsColumn(s: seq<nat>, r: nat, c: nat)
    requires r <= |s| && c < |s|
    ensures Pairs(s, r, c + 1) == Pairs(s, r, c) + SumTo(s, r, AbsDiff(s[c]))
  {
    if r > 0 {
      PairsColumn(s, r - 1, c);
      assert Spread(s, c + 1)(s[r - 1]) == Spread(s, c)(s[r - 1]) + AbsDiff(s[r - 1])(s[c]);
      assert AbsDiff(s[r - 1])(s[c]) == AbsDiff(s[c])(s[r - 1]);
    }
  }

  lemma PairsSquare(s: seq<nat>, m: nat)
    requires m < |s|
    ensures Pairs(s, m + 1, m + 1) == Pairs(s, m, m) + 2 * SumTo(s, m, AbsDiff(s[m]))
  {
    PairsColumn(s, m, m);
    assert Pairs(s, m + 1, m + 1) == Pairs(s, m, m + 1) + Spread(s, m + 1)(s[m]);
    assert Spread(s, m + 1)(s[m]) == SumTo(s, m, AbsDiff(s[m])) + AbsDiff(s[m])(s[m]);
  }

  // ----- The sorted formula ------------------------------------------------------------------------

  predicate Ascending(s: seq<nat>) {
    forall i, j :: 0 <= i < j < |s| ==> s[i] <= s[j]
  }

  /** The first n entries, each times its one-based rank. */
  ghost function Weighted(s: seq<nat>, n: nat): nat
    requires n <= |s|
  {
    if n == 0 then 0 else Weighted(s, n - 1) + n * s[n - 1]
  }

  lemma {:induction false} DistanceToMax(s: seq<nat>, m: nat, x: nat)
    requires m <= |s| && forall k :: 0 <= k < m ==> s[k] <= x
    ensures SumTo(s, m, AbsDiff(x)) + SumTo(s, m, Same) == m * x
  {
    if m > 0 {
      DistanceToMax(s, m - 1, x);
    }
  }

  /** On a sorted list ranks give the pairwise sum. */
  lemma {:induction false} RanksGivePairs(s: seq<nat>, m: nat)
    requires m <= |s| && Ascending(s)
    ensures Pairs(s, m, m) + 2 * (m + 1) * SumTo(s, m, Same) == 4 * Weighted(s, m)
  {
    hide Pairs;
    PairsNone(s);
    if m > 0 {
      var n, x := m - 1, s[m - 1];
      RanksGivePairs(s, n);
      PairsSquare(s, n);
      DistanceToMax(s, n, x);
      RankStep(Pairs(s, n, n), SumTo(s, n, Same), Weighted(s, n), n, x, SumTo(s, n, AbsDiff(x)));
    }
  }

  lemma PairsNone(s: seq<nat>)
    ensures Pairs(s, 0, 0) == 0
  {
  }

  lemma RankStep(p: nat, t: nat, w: nat, n: nat, x: nat, d: nat)
    requires p + 2 * (n + 1) * t == 4 * w && d + t == n * x
    ensures (p + 2 * d) + 2 * (n + 2) * (t + x) == 4 * (w + (n + 1) * x)
  {
    assert 2 * (n + 2) * (t + x) == 2 * (n + 1) * t + 2 * t + 2 * (n * x) + 4 * x;
    assert (n + 1) * x == n * x + x;
  }

  lemma {:induction false} WeightedBound(s: seq<nat>, n: nat)
    requires n <= |s|
    ensures Weighted(s, n) <= n * SumTo(s, n, Same)
  {
    if n > 0 {
      WeightedBound(s, n - 1);
      var t, x := SumTo(s, n - 1, Same), s[n - 1];
      assert n * (t + x) == (n - 1) * t + t + n * x;
    }
  }

  /** The rank formula: w is the rank-weighted sum of a sorted list. */
  function RankQuotient(w: nat, n: nat, total: nat): real
    requires n > 0 && total > 0
  {
    RankReal(w as real, n as real, total as real)
  }

  function RankReal(w: real, n: real, total: real): real
    requires n > 0.0 && total > 0.0
  {
    2.0 * w / (n * total) - (n + 1.0) / n
  }

  lemma RankFormula(w: real, p: real, n: real, total: real)
    requires n > 0.0 && total > 0.0 && p + 2.0 * (n + 1.0) * total == 4.0 * w
    ensures RankReal(w, n, total) == PairReal(p, n, total)
  {
    var d := n * total;
    assert d > 0.0;
    assert 2.0 * w == p / 2.0 + (n + 1.0) * total;
    assert 2.0 * w / d == p / 2.0 / d + (n + 1.0) * total / d;
    assert (n + 1.0) * total / d == (n + 1.0) / n by { Cancel(n + 1.0, n, total); }
    assert p / 2.0 / d == p / (2.0 * n * total) by { Halve(p, d); }
  }

  lemma Cancel(a: real, b: real, c: real)
    requires b > 0.0 && c > 0.0
    ensures b * c > 0.0 && a * c / (b * c) == a / b
  {
    var q := a / b;
    assert q * b == a;
    assert q * (b * c) == (q * b) * c == a * c;
  }

  lemma Halve(p: real, d: real)
    requires d > 0.0
    ensures p / 2.0 / d == p / (2.0 * d)
  {
    var q := p / 2.0 / d;
    assert q * d == p / 2.0;
    assert q * (2.0 * d) == p;
  }

  lemma AsReal(p: int, n: int, t: int, w: int)
    requires p + 2 * (n + 1) * t == 4 * w
    ensures p as real + 2.0 * (n as real + 1.0) * t as real == 4.0 * w as real
  {
    assert 2 * (n + 1) * t == 2 * (n * t) + 2 * t;
    assert (n * t) as real == n as real * t as real;
  }

  lemma QuotientsAgree(w: nat, p: nat, n: nat, total: nat)
    requires n > 0 && total > 0 && p + 2 * (n + 1) * total == 4 * w
    ensures RankQuotient(w, n, total) == PairQuotient(p, n, total)
  {
    hide RankReal, PairReal;
    AsReal(p, n, total, w);
    RankFormula(w as real, p as real, n as real, total as real);
  }

  /** The rank formula is the pairwise definition. */
  lemma RankIsPairwise(s: seq<nat>)
    requires |s| >= 2 && Total(s, Same) > 0 && Ascending(s)
    ensures RankQuotient(Weighted(s, |s|), |s|, Total(s, Same)) == PairwiseGini(s)
  {
    hide Pairs, Weighted, Ascending, RankQuotient, PairQuotient;
    RanksGivePairs(s, |s|);
    QuotientsAgree(Weighted(s, |s|), PairSum(s), |s|, Total(s, Same));
  }

  // ----- The source's procedures ----------------------------------------------------------------------

  lemma InsertedAscends(s: seq<nat>, p: nat, x: nat)
    requires Ascending(s) && p <= |s|
    requires (forall k :: 0 <= k < p ==> s[k] <= x) && (p < |s| ==> x < s[p])
    ensures Ascending(Inserted(s, p, x))
  {
    InsertedAt(s, p, x);
    hide Inserted;
    var out := Inserted(s, p, x);
    forall i, j | 0 <= i < j < |out| ensures out[i] <= out[j] {
      if j > p && i <= p {
        assert s[p] <= s[j - 1];
        assert out[i] <= x;
      }
    }
  }

  /** How many of the first n entries of an ascending list are at most x. */
  function Place(s: seq<nat>, n: nat, x: nat): (p: nat)
    requires n <= |s| && Ascending(s)
    ensures p <= n && (forall k :: 0 <= k < p ==> s[k] <= x) && (p < n ==> x < s[p])
  {
    if n == 0 then 0 else if s[n - 1] <= x then n else Place(s, n - 1, x)
  }

  function Insert(s: seq<nat>, x: nat): (out: seq<nat>)
    requires Ascending(s)
    ensures Ascending(out) && multiset(out) == multiset(s) + multiset{x}
  {
    InsertedAscends(s, Place(s, |s|, x), x);
    InsertedPermutes(s, Place(s, |s|, x), x);
    Inserted(s, Place(s, |s|, x), x)
  }

  /** The ascending permutation. */
  function Sorted(s: seq<nat>): (out: seq<nat>)
    ensures Ascending(out) && multiset(out) == multiset(s)
  {
    if s == [] then []
    else
      assert s == s[..|s| - 1] + [s[|s| - 1]];
      Insert(Sorted(s[..|s| - 1]), s[|s| - 1])
  }

  /** The wealth of the living, in list order. */
  ghost function Purses(agents: seq<Agent>, n: nat): seq<nat>
    requires n <= |agents|
  {
    if n == 0 then []
    else Purses(agents, n - 1) + if agents[n - 1].alive then [agents[n - 1].wealth] else []
  }

  method CollectPurses(agents: seq<Agent>) returns (ws: seq<nat>)
    ensures ws == Purses(agents, |agents|)
  {
    ws := [];
    for i := 0 to |agents|
      invariant ws == Purses(agents, i)
    {
      if agents[i].alive { ws := ws + [agents[i].wealth]; }
    }
  }

  // ----- The Gini coefficient in 64 bits ------------------------------------------------------------------

  /** The rank-weighted sum of the sorted purses, said without sorting them. */
  ghost function RankSum(ws: seq<nat>): nat {
    (PairSum(ws) + 2 * (|ws| + 1) * Total(ws, Same)) / 4
  }

  function Wrap(x: nat): nat { x % UINT64 }

  lemma RankSumIs(ws: seq<nat>, sorted: seq<nat>)
    requires Ascending(sorted) && multiset(sorted) == multiset(ws)
    ensures |ws| == |sorted| && Total(ws, Same) == Total(sorted, Same) && PairwiseGini(ws) == PairwiseGini(sorted)
    ensures RankSum(ws) == Weighted(sorted, |sorted|)
  {
    hide Pairs, Weighted, Ascending, PairQuotient;
    SameSize(ws, sorted);
    TotalPermutes(ws, sorted, Same);
    PairSumPermutes(ws, sorted);
    RanksGivePairs(sorted, |sorted|);
  }

  /** What the code returns: both sums are kept in 64 bits. */
  ghost function GiniResult(ws: seq<nat>): real {
    if |ws| < 2 || Wrap(Total(ws, Same)) == 0 then 0.0
    else RankQuotient(Wrap(RankSum(ws)), |ws|, Wrap(Total(ws, Same)))
  }

  lemma RankQuotientGrows(v: nat, w: nat, n: nat, total: nat)
    requires n > 0 && total > 0 && v < w
    ensures RankQuotient(v, n, total) < RankQuotient(w, n, total)
  {
    var d := n as real * total as real;
    assert d > 0.0;
    var p, q := 2.0 * v as real / d, 2.0 * w as real / d;
    assert (q - p) * d == q * d - p * d > 0.0;
    assert q > p;
  }

  /** As long as the wealth of the living fits 64 bits, the result is the Gini coefficient if and only if the
      rank-weighted sum fits them too. */
  lemma GiniIsExactIff(ws: seq<nat>)
    requires Total(ws, Same) < UINT64
    ensures GiniResult(ws) == PairwiseGini(ws) <==> RankSum(ws) < UINT64
  {
    hide Weighted, Ascending, Pairs, RankQuotient, PairQuotient, Total, RankSum;
    var sorted := Sorted(ws);
    var n, w, total := |ws|, RankSum(ws), Total(ws, Same);
    RankSumIs(ws, sorted);
    WeightedSmall(sorted);
    if n >= 2 && total > 0 {
      RankIsPairwise(sorted);
      if w >= UINT64 {
        RankQuotientGrows(Wrap(w), w, n, total);
      }
    }
  }

  lemma WeightedSmall(s: seq<nat>)
    ensures |s| < 2 || Total(s, Same) == 0 ==> Weighted(s, |s|) <= Total(s, Same)
  {
    hide Weighted, SumTo;
    WeightedBound(s, |s|);
  }

  /** The coefficient lies between 0 and (n - 1)/n. */
  lemma GiniBounds(ws: seq<nat>)
    ensures 0.0 <= PairwiseGini(ws)
    ensures |ws| > 0 ==> PairwiseGini(ws) <= MostUnequal(|ws|)
  {
    hide Weighted, Ascending, Pairs, RankQuotient, PairQuotient, Total, MostUnequal;
    PairwisePositive(ws);
    var sorted := Sorted(ws);
    RankSumIs(ws, sorted);
    var n, total := |ws|, Total(ws, Same);
    if n >= 2 && total > 0 {
      RankIsPairwise(sorted);
      WeightedTotal(sorted);
      AtMostAsReal(Weighted(sorted, n), n, total);
      TopBound(Weighted(sorted, n), n, total);
    } else {
      ZeroAtMost(n);
    }
  }

  lemma WeightedTotal(s: seq<nat>)
    ensures Weighted(s, |s|) <= |s| * Total(s, Same)
  {
    hide Weighted, SumTo;
    WeightedBound(s, |s|);
  }

  /** Enough room for the product of the two numbers is enough for the weighted sum. */
  lemma RankSumFits(ws: seq<nat>)
    ensures RankSum(ws) <= |ws| * Total(ws, Same)
  {
    hide Weighted, Ascending, RankSum, Total;
    var sorted := Sorted(ws);
    RankSumIs(ws, sorted);
    WeightedTotal(sorted);
  }

  /** Two purses that fit 64 bits together, and a coefficient of -1 or less. */
  lemma GiniWraps()
    ensures var ws := [0x7fff_ffff_ffff_ffff, 0x8000_0000_0000_0000];
            Total(ws, Same) < UINT64 <= RankSum(ws) && GiniResult(ws) <= -1.0
  {
    var x, y := 0x7fff_ffff_ffff_ffff, 0x8000_0000_0000_0000;
    var ws: seq<nat> := [x, y];
    assert SumTo(ws, 1, Same) == x && SumTo(ws, 2, Same) == x + y;
    assert Weighted(ws, 1) == x && Weighted(ws, 2) == x + 2 * y;
    RankSumIs(ws, ws);
    assert Wrap(RankSum(ws)) == x;
    BelowZero(x, x + y);
  }

  lemma BelowZero(w: nat, total: nat)
    requires total > 0 && 2 * w <= total
    ensures RankQuotient(w, 2, total) <= -1.0
  {
    var d := 2.0 * total as real;
    QuotientAtMost(2.0 * w as real, d, 0.5);
    assert 2 as real * total as real == d && (2 as real + 1.0) / 2 as real == 1.5;
  }

  /** The one-pass rank formula over 64-bit sums. It computes the pairwise Gini coefficient of the living if and
      only if the rank-weighted sum fits, and in particular if n times their wealth does. */
  method GiniCoefficient(agents: seq<Agent>) returns (g: real)
    ensures var ws := Purses(agents, |agents|);
            && g == GiniResult(ws)
            && (Total(ws, Same) < UINT64 ==> (g == PairwiseGini(ws) <==> RankSum(ws) < UINT64))
            && (|ws| * Total(ws, Same) < UINT64 ==>
                  g == PairwiseGini(ws) && 0.0 <= g && (|ws| > 0 ==> g <= MostUnequal(|ws|)))
  {
    hide Total, Weighted, Pairs, Ascending, Purses, RankQuotient, PairQuotient, MostUnequal, PairwiseGini, RankSum;
    var ws := CollectPurses(agents);
    GiniContract(ws);
    var n := |ws|;
    if n < 2 {
      return 0.0;
    }
    var sorted := Sorted(ws);
    RankSumIs(ws, sorted);
    var total, weighted := Tally(sorted);
    if total == 0 {
      return 0.0;
    }
    g := RankQuotient(weighted, n, total);
  }

  lemma GiniContract(ws: seq<nat>)
    ensures Total(ws, Same) < UINT64 ==> (GiniResult(ws) == PairwiseGini(ws) <==> RankSum(ws) < UINT64)
    ensures |ws| * Total(ws, Same) < UINT64 ==>
              && GiniResult(ws) == PairwiseGini(ws) && 0.0 <= GiniResult(ws)
              && (|ws| > 0 ==> GiniResult(ws) <= MostUnequal(|ws|))
  {
    hide Total, RankQuotient, PairQuotient, MostUnequal, PairwiseGini, RankSum, GiniResult;
    RankSumFits(ws);
    GiniBounds(ws);
    if Total(ws, Same) < UINT64 {
      GiniIsExactIff(ws);
    } else {
      TimesAtLeast(|ws|, Total(ws, Same));
      NothingWithoutPurses(ws);
    }
  }

  lemma TimesAtLeast(n: nat, t: nat)
    ensures n > 0 ==> n * t >= t
  {
  }

  lemma NothingWithoutPurses(ws: seq<nat>)
    ensures |ws| == 0 ==> Total(ws, Same) == 0
  {
  }

  /** One purse holds everything. */
  function MostUnequal(n: nat): real
    requires n > 0
  {
    TopReal(n as real)
  }

  function TopReal(n: real): real
    requires n > 0.0
  {
    (n - 1.0) / n
  }

  /** Both sums wrap as 64-bit sums do. */
  method Tally(s: seq<nat>) returns (total: nat, weighted: nat)
    ensures total == Wrap(Total(s, Same)) && weighted == Wrap(Weighted(s, |s|))
  {
    hide Wrap;
    WrapNone();
    total, weighted := 0, 0;
    for i := 0 to |s|
      invariant total == Wrap(SumTo(s, i, Same)) && weighted == Wrap(Weighted(s, i))
    {
      WrapAdd(SumTo(s, i, Same), s[i]);
      WrapAdd(Weighted(s, i), (i + 1) * s[i]);
      WrapAdd((i + 1) * s[i], weighted);
      total := Wrap(total + s[i]);
      weighted := Wrap(weighted + Wrap((i + 1) * s[i]));
    }
  }

  lemma WrapNone()
    ensures Wrap(0) == 0
  {
  }

  lemma WrapAdd(x: nat, y: nat)
    ensures Wrap(Wrap(x) + y) == Wrap(x + y)
  {
  }

  lemma ZeroAtMost(n: nat)
    ensures n > 0 ==> 0.0 <= MostUnequal(n)
  {
    if n > 0 {
      var q := (n as real - 1.0) / n as real;
      assert q * n as real >= 0.0;
    }
  }

  lemma TopBound(weighted: nat, n: nat, total: nat)
    requires n >= 2 && total > 0 && weighted as real <= n as real * total as real
    ensures RankQuotient(weighted, n, total) <= MostUnequal(n)
  {
    hide RankReal, TopReal;
    RealTopBound(weighted as real, n as real, total as real);
  }

  lemma ProductAsReal(n: int, t: int)
    ensures (n * t) as real == n as real * t as real
  {
  }

  lemma AtMostAsReal(w: int, n: int, t: int)
    requires w <= n * t
    ensures w as real <= n as real * t as real
  {
    ProductAsReal(n, t);
  }

  lemma RealTopBound(w: real, n: real, total: real)
    requires n > 0.0 && total > 0.0 && w <= n * total
    ensures RankReal(w, n, total) <= TopReal(n)
  {
    var d := n * total;
    assert d > 0.0;
    QuotientAtMost(2.0 * w, d, 2.0);
    TwoFractions(n);
  }

  lemma QuotientAtMost(x: real, d: real, c: real)
    requires d > 0.0 && x <= c * d
    ensures x / d <= c
  {
    var q := x / d;
    assert (c - q) * d >= 0.0;
  }

  lemma TwoFractions(m: real)
    requires m > 0.0
    ensures (m + 1.0) / m + (m - 1.0) / m == 2.0
  {
    var a, b := (m + 1.0) / m, (m - 1.0) / m;
    assert (a + b) * m == 2.0 * m;
  }

  lemma PairwisePositive(s: seq<nat>)
    ensures PairwiseGini(s) >= 0.0
  {
    if |s| >= 2 && Total(s, Same) > 0 {
      var p, d := PairSum(s) as real, 2.0 * |s| as real * Total(s, Same) as real;
      assert d > 0.0;
      var q := p / d;
      assert q * d == p >= 0.0;
    }
  }

  // ----- Shares of the poorest half and the richest tenth ------------------------------------------------

  lemma {:induction false} LowerHalf(s: seq<nat>, mid: nat, j: nat)
    requires Ascending(s) && j <= mid && mid + j <= |s|
    ensures SumTo(s, j, Same) + SumTo(s, mid, Same) <= SumTo(s, mid + j, Same)
  {
    if j > 0 {
      LowerHalf(s, mid, j - 1);
    }
  }

  lemma {:induction false} SumAtMost(s: seq<nat>, k: nat, x: nat)
    requires k <= |s| && forall i :: 0 <= i < k ==> s[i] <= x
    ensures SumTo(s, k, Same) <= k * x
  {
    if k > 0 {
      SumAtMost(s, k - 1, x);
    }
  }

  lemma {:induction false} SumAtLeast(s: seq<nat>, j: nat, k: nat, x: nat)
    requires j <= k <= |s| && forall i :: j <= i < k ==> s[i] >= x
    ensures SumTo(s, k, Same) - SumTo(s, j, Same) >= (k - j) * x
  {
    if j < k {
      SumAtLeast(s, j, k - 1, x);
    }
  }

  /** The richest `top` hold at least their fair share. */
  lemma TopShare(s: seq<nat>, top: nat)
    requires Ascending(s) && 0 < top <= |s|
    ensures |s| * (Total(s, Same) - SumTo(s, |s| - top, Same)) >= top * Total(s, Same)
  {
    var k, n := |s| - top, |s|;
    var x := s[k];
    SumAtMost(s, k, x);
    SumAtLeast(s, k, n, x);
    var low, high := SumTo(s, k, Same), Total(s, Same) - SumTo(s, k, Same);
    FairShare(low, high, k, top, x);
  }

  lemma FairShare(low: int, high: int, k: nat, top: nat, x: nat)
    requires low <= k * x && high >= top * x
    ensures (k + top) * high >= top * (low + high)
  {
    assert top * low <= top * (k * x);
    assert k * high >= k * (top * x);
    assert top * (k * x) == k * (top * x);
  }

  /** The 64-bit sum of a stretch of the list. */
  method WrappedSum(s: seq<nat>, from: nat, to: nat) returns (sum: nat)
    requires from <= to <= |s|
    ensures SumTo(s, from, Same) <= SumTo(s, to, Same)
    ensures sum == Wrap(SumTo(s, to, Same) - SumTo(s, from, Same))
  {
    hide Wrap;
    WrapNone();
    SumToGrows<nat>(s, from, to, Same);
    sum := 0;
    for i := from to to
      invariant SumTo(s, from, Same) <= SumTo(s, i, Same) && sum == Wrap(SumTo(s, i, Same) - SumTo(s, from, Same))
    {
      WrapAdd(SumTo(s, i, Same) - SumTo(s, from, Same), s[i]);
      sum := Wrap(sum + s[i]);
    }
  }

  /** As long as the wealth of the living fits 64 bits, the share of the poorest half is exact and at most one half,
      and that of the richest tenth exact and at least the fraction of people it counts. */
  ghost predicate Shares(sorted: seq<nat>, poor: real, rich: real) {
    var n, total := |sorted|, Total(sorted, Same);
    && (n < 2 || Wrap(total) == 0 ==> poor == rich == 0.0)
    && (n >= 2 && 0 < total < UINT64 ==>
          && poor == SumTo(sorted, n / 2, Same) as real / total as real
          && rich == (total - SumTo(sorted, n - n / 10, Same)) as real / total as real
          && 0.0 <= poor <= 0.5
          && rich * n as real >= (n / 10) as real)
  }

  lemma SharesOk(sorted: seq<nat>, low: nat, top: nat)
    requires Ascending(sorted) && |sorted| >= 2 && 0 < Total(sorted, Same) < UINT64
    requires low == Wrap(SumTo(sorted, |sorted| / 2, Same))
    requires SumTo(sorted, |sorted| - |sorted| / 10, Same) <= Total(sorted, Same)
    requires top == Wrap(Total(sorted, Same) - SumTo(sorted, |sorted| - |sorted| / 10, Same))
    ensures var total := Wrap(Total(sorted, Same));
            total > 0 && Shares(sorted, low as real / total as real, top as real / total as real)
  {
    hide SumTo, Ascending, Wrap;
    var n, total := |sorted|, Total(sorted, Same);
    LowerHalf(sorted, n / 2, n / 2);
    SumToGrows<nat>(sorted, n / 2 + n / 2, n, Same);
    SmallWraps(sorted, n / 2, n - n / 10);
    AtMostHalf(low, total);
    RichShare(sorted, n / 10, total, total - top);
  }

  /** Both shares from 64-bit sums over the sorted wealth of the living. */
  method WealthDistribution(agents: seq<Agent>) returns (poor: real, rich: real)
    ensures Shares(Sorted(Purses(agents, |agents|)), poor, rich)
  {
    hide SumTo, Purses, Sorted, Wrap, Ascending;
    var ws := CollectPurses(agents);
    var sorted := Sorted(ws);
    var n := |sorted|;
    NoneSummed(sorted);
    var total := WrappedSum(sorted, 0, n);
    if n < 2 || total == 0 {
      SmallTotals(sorted);
      return 0.0, 0.0;
    }
    var low := WrappedSum(sorted, 0, n / 2);
    var top := WrappedSum(sorted, n - n / 10, n);
    poor := low as real / total as real;
    rich := top as real / total as real;
    if 0 < Total(sorted, Same) < UINT64 {
      SharesOk(sorted, low, top);
    }
  }

  lemma NoneSummed(s: seq<nat>)
    ensures SumTo(s, 0, Same) == 0
  {
  }

  lemma SmallTotals(s: seq<nat>)
    ensures Total(s, Same) < UINT64 && Wrap(Total(s, Same)) == 0 ==> Total(s, Same) == 0
  {
  }

  lemma SmallWraps(s: seq<nat>, m: nat, k: nat)
    requires m <= |s| && k <= |s| && Total(s, Same) < UINT64
    ensures Wrap(Total(s, Same)) == Total(s, Same)
    ensures Wrap(SumTo(s, m, Same)) == SumTo(s, m, Same)
    ensures SumTo(s, k, Same) <= Total(s, Same)
    ensures Wrap(Total(s, Same) - SumTo(s, k, Same)) == Total(s, Same) - SumTo(s, k, Same)
    ensures SumTo(s, 0, Same) == 0
  {
    SumToGrows<nat>(s, m, |s|, Same);
    SumToGrows<nat>(s, k, |s|, Same);
  }

  lemma RichShare(s: seq<nat>, top: nat, total: nat, rest: nat)
    requires Ascending(s) && top <= |s| && total == Total(s, Same) > 0 && rest == SumTo(s, |s| - top, Same)
    ensures (total - rest) as real / total as real * |s| as real >= top as real
  {
    hide Ascending, SumTo;
    if top > 0 {
      TopShare(s, top);
    } else {
      assert rest == total;
    }
    AtLeastFraction(total - rest, total, |s|, top);
  }

  lemma AtMostHalf(part: nat, total: nat)
    requires 2 * part <= total && total > 0
    ensures 0.0 <= part as real / total as real <= 0.5
  {
    var q := part as real / total as real;
    assert q * total as real == part as real;
  }

  lemma AtLeastFraction(part: int, total: nat, n: nat, top: nat)
    requires total > 0 && n * part >= top * total
    ensures part as real / total as real * n as real >= top as real
  {
    var q, t, m := part as real / total as real, total as real, n as real;
    assert q * t == part as real;
    assert (n * part) as real == m * part as real && (top * total) as real == top as real * t;
    assert (q * m - top as real) * t == m * (q * t) - top as real * t >= 0.0;
  }
}
