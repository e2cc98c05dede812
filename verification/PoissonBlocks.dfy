/**
 The fast-block planning bound over exact reals: the truncated upper tail of a
 Poisson distribution, the search for the least safe block count, and the CLTV
 gate built on it. `c` stands for e^-mu; any constant in (0, 1] will do.
 */
module PoissonBlocks {
  import opened Wrappers

  const EPSILON: real := 1.0 / 10_000_000_000_000_000.0

  const MAX_TERMS: nat := 200

  const NOMINAL_BLOCK_SECONDS: real := 600.0

  predicate Mean(mu: real, c: real) { mu >= 0.0 && 0.0 < c <= 1.0 }

  function Pow(x: real, k: nat): real { if k == 0 then 1.0 else Pow(x, k - 1) * x }

  function Factorial(k: nat): (f: real)
    ensures f >= 1.0
  {
    if k == 0 then 1.0 else ProductAtLeast(Factorial(k - 1), k)
  }

  /** A product of two factors of at least one is at least one. */
  function ProductAtLeast(f: real, k: nat): (p: real)
    requires f >= 1.0 && k >= 1
    ensures p == f * (k as real) && p >= 1.0
  {
    assert f * (k as real) >= f * 1.0;
    f * (k as real)
  }

  /** The Poisson probability of exactly `k` blocks. */
  function Prob(k: nat, mu: real, c: real): real { c * Pow(mu, k) / Factorial(k) }

  /** The r-th term of the series from the one before it: `n` is k + r. */
  function NextTerm(term: real, mu: real, n: nat): real
    requires n > 0
  {
    term * (mu / (n as real))
  }

  /** The series after its leading 1, from the r-th term on, with its early break. */
  function Series(k: nat, mu: real, r: nat, term: real): real
    requires 1 <= r
    decreases MAX_TERMS - r
  {
    if r >= MAX_TERMS then 0.0
    else
      var next := NextTerm(term, mu, k + r);
      next + (if next < EPSILON then 0.0 else Series(k, mu, r + 1, next))
  }

  function Tail(k: int, mu: real, c: real): real {
    if k <= 0 then 1.0 else Prob(k, mu, c) * (1.0 + Series(k, mu, 1, 1.0))
  }

  function Ceil(x: real): int { -((-x).Floor) }

  // ----------------------------------------------------------- real arithmetic

  lemma MulMono(a: real, b: real, x: real, y: real)
    requires 0.0 <= a <= b && 0.0 <= x <= y
    ensures 0.0 <= a * x <= b * y
  {
    assert a * x <= b * x <= b * y;
  }

  lemma RatioMono(mu: real, low: nat, high: nat)
    requires mu >= 0.0 && 0 < low <= high
    ensures 0.0 <= mu / (high as real) <= mu / (low as real)
  {
    var a, b := mu / (low as real), mu / (high as real);
    var l, h := low as real, high as real;
    assert a * l == mu && b * h == mu;
    assert b >= 0.0;
    assert (a - b) * l == b * (h - l);
    MulMono(0.0, b, 0.0, h - l);
    if a < b { MulStrict(a - b, 0.0, l); }
  }

  lemma MulStrict(a: real, b: real, x: real)
    requires a < b && x > 0.0
    ensures a * x < b * x
  {
  }

  /** A smaller term over a larger count stays smaller. */
  lemma NextTermMono(small: real, large: real, mu: real, low: nat, high: nat)
    requires 0.0 <= small <= large && mu >= 0.0 && 0 < low <= high
    ensures 0.0 <= NextTerm(small, mu, high) <= NextTerm(large, mu, low)
  {
    RatioMono(mu, low, high);
    MulMono(small, large, mu / (high as real), mu / (low as real));
  }

  /** While `n` is at least `times` the mean, a term shrinks by that factor. */
  lemma NextTermAtMost(t: real, mu: real, n: nat, share: real)
    requires t >= 0.0 && mu >= 0.0 && n > 0 && mu <= share * (n as real)
    ensures NextTerm(t, mu, n) <= t * share
  {
    var q := mu / (n as real);
    assert q * (n as real) == mu;
    if q > share { MulStrict(share, q, n as real); }
    MulMono(0.0, t, 0.0, share - q);
    assert t * (share - q) == t * share - t * q;
  }

  /** Scaling a term scales the next one. */
  lemma NextTermScales(p: real, s: real, mu: real, n: nat, next: real, scaled: real)
    requires n > 0 && next == NextTerm(p, mu, n) && scaled == p * s
    ensures next * s == NextTerm(scaled, mu, n)
  {
    var q := mu / (n as real);
    assert (p * q) * s == (p * s) * q;
  }

  lemma QuotientOfProducts(a: real, b: real, f: real, n: real)
    requires f > 0.0 && n > 0.0
    ensures f * n > 0.0 && (a * b) / (f * n) == (a / f) * (b / n)
  {
    var p, q := a / f, b / n;
    assert a == p * f && b == q * n;
    assert a * b == (p * q) * (f * n);
  }

  // ----------------------------------------------------- what the tail computes

  lemma {:induction false} ProbNonNegative(k: nat, mu: real, c: real)
    requires Mean(mu, c)
    ensures Pow(mu, k) >= 0.0 && Prob(k, mu, c) >= 0.0
  {
    if k > 0 { ProbNonNegative(k - 1, mu, c); }
  }

  /** Each probability is the previous one times mu over the new count. */
  lemma ProbStep(k: nat, mu: real, c: real)
    ensures Prob(k + 1, mu, c) == NextTerm(Prob(k, mu, c), mu, k + 1)
  {
    var f, x, n := Factorial(k), c * Pow(mu, k), (k + 1) as real;
    assert Prob(k + 1, mu, c) == (c * (Pow(mu, k) * mu)) / (f * n);
    assert c * (Pow(mu, k) * mu) == x * mu;
    QuotientOfProducts(x, mu, f, n);
  }

  /** The sum of the probabilities of `low`, `low + 1`, ... for `count` block counts. */
  function ProbSum(low: nat, count: nat, mu: real, c: real): real
    decreases count
  {
    if count == 0 then 0.0 else Prob(low, mu, c) + ProbSum(low + 1, count - 1, mu, c)
  }

  /** How many terms the series takes from the r-th on. */
  function Terms(k: nat, mu: real, r: nat, term: real): (n: nat)
    requires 1 <= r
    ensures r + n <= MAX_TERMS || n == 0
    decreases MAX_TERMS - r
  {
    if r >= MAX_TERMS then 0
    else
      var next := NextTerm(term, mu, k + r);
      1 + (if next < EPSILON then 0 else Terms(k, mu, r + 1, next))
  }

  lemma Distribute(p: real, a: real, b: real)
    ensures p * (a + b) == p * a + p * b
  {
  }

  lemma {:induction false} SeriesIsProbSum(k: nat, mu: real, c: real, r: nat, term: real)
    requires 1 <= r && Prob(k, mu, c) * term == Prob(k + r - 1, mu, c)
    ensures Prob(k, mu, c) * Series(k, mu, r, term) == ProbSum(k + r, Terms(k, mu, r, term), mu, c)
    decreases MAX_TERMS - r
  {
    hide NextTerm, Prob;
    var p := Prob(k, mu, c);
    if r < MAX_TERMS {
      var next := NextTerm(term, mu, k + r);
      ProbStep(k + r - 1, mu, c);
      assert term * p == Prob(k + r - 1, mu, c);
      NextTermScales(term, p, mu, k + r, next, Prob(k + r - 1, mu, c));
      assert p * next == next * p == Prob(k + r, mu, c);
      if next >= EPSILON {
        SeriesIsProbSum(k, mu, c, r + 1, next);
        Distribute(p, next, Series(k, mu, r + 1, next));
      } else {
        Distribute(p, next, 0.0);
        assert ProbSum(k + r + 1, 0, mu, c) == 0.0;
      }
    }
  }

  /**
   The tail is a partial sum of the upper tail it stands for: the exact
   probabilities of k, k + 1, ... up to the term where the series stops.
   */
  lemma TailIsPartialSum(k: nat, mu: real, c: real)
    requires k > 0
    ensures Tail(k, mu, c) == ProbSum(k, 1 + Terms(k, mu, 1, 1.0), mu, c)
  {
    hide Prob, Series, Terms;
    var p, s := Prob(k, mu, c), Series(k, mu, 1, 1.0);
    SeriesIsProbSum(k, mu, c, 1, 1.0);
    Distribute(p, 1.0, s);
  }

  /** Above the mean the rest of the series is bounded by the term before it. */
  lemma {:induction false} RestIsBounded(m: nat, n: nat, mu: real, c: real)
    requires Mean(mu, c) && m > 0 && mu <= m as real
    ensures ProbSum(m, n, mu, c) >= 0.0
    ensures ProbSum(m, n, mu, c) * (m as real - mu) <= Prob(m - 1, mu, c) * mu
    decreases n
  {
    hide Prob, NextTerm;
    ProbNonNegative(m - 1, mu, c);
    if n == 0 {
      MulMono(0.0, Prob(m - 1, mu, c), 0.0, mu);
    } else {
      ProbNonNegative(m, mu, c);
      RestIsBounded(m + 1, n - 1, mu, c);
      ProbTimesCount(m - 1, mu, c);
      RestStep(ProbSum(m + 1, n - 1, mu, c), Prob(m, mu, c), mu, m as real);
    }
  }

  lemma RestStep(rest: real, p: real, mu: real, m: real)
    requires rest >= 0.0 && rest * (m + 1.0 - mu) <= p * mu
    ensures (p + rest) * (m - mu) <= p * m
  {
    assert rest * (m + 1.0 - mu) == rest * (m - mu) + rest;
    assert (p + rest) * (m - mu) == p * m - p * mu + rest * (m - mu);
  }

  lemma ProbTimesCount(k: nat, mu: real, c: real)
    ensures Prob(k + 1, mu, c) * ((k + 1) as real) == Prob(k, mu, c) * mu
  {
    hide Prob;
    ProbStep(k, mu, c);
    var p, n := Prob(k, mu, c), (k + 1) as real;
    assert (p * (mu / n)) * n == p * ((mu / n) * n);
  }

  lemma {:induction false} SumSplits(low: nat, a: nat, b: nat, mu: real, c: real)
    ensures ProbSum(low, a + b, mu, c) == ProbSum(low, a, mu, c) + ProbSum(low + a, b, mu, c)
    decreases a
  {
    hide Prob;
    if a > 0 { SumSplits(low + 1, a - 1, b, mu, c); }
  }

  lemma SumGrows(low: nat, a: nat, b: nat, mu: real, c: real)
    requires a <= b && Mean(mu, c)
    ensures ProbSum(low, a, mu, c) <= ProbSum(low, b, mu, c)
  {
    SumSplits(low, a, b - a, mu, c);
    SumNonNegative(low + a, b - a, mu, c);
  }

  lemma {:induction false} SumNonNegative(low: nat, n: nat, mu: real, c: real)
    requires Mean(mu, c)
    ensures ProbSum(low, n, mu, c) >= 0.0
    decreases n
  {
    hide Prob;
    if n > 0 {
      ProbNonNegative(low, mu, c);
      SumNonNegative(low + 1, n - 1, mu, c);
    }
  }

  /** The series stops at a term below the threshold, relative to the first, or at its limit. */
  lemma {:induction false} LastTermIsSmall(k: nat, mu: real, c: real, r: nat, term: real)
    requires Mean(mu, c) && 1 <= r < MAX_TERMS && Prob(k, mu, c) * term == Prob(k + r - 1, mu, c)
    ensures var n := Terms(k, mu, r, term);
      n > 0 && (Prob(k + r - 1 + n, mu, c) <= EPSILON * Prob(k, mu, c) || r + n == MAX_TERMS)
    decreases MAX_TERMS - r
  {
    hide NextTerm, Prob;
    var p := Prob(k, mu, c);
    var next := NextTerm(term, mu, k + r);
    ProbStep(k + r - 1, mu, c);
    NextTermScales(term, p, mu, k + r, next, Prob(k + r - 1, mu, c));
    if next < EPSILON {
      ProbNonNegative(k, mu, c);
      MulMono(0.0, p, 0.0, EPSILON - next);
      assert p * (EPSILON - next) == p * EPSILON - p * next;
    } else if r + 1 < MAX_TERMS {
      LastTermIsSmall(k, mu, c, r + 1, next);
    }
  }

  /**
   What the truncation leaves out: no sum of the upper tail, however long,
   exceeds the computed one by more than `mu` times its last term, and that
   term is below the threshold unless all the terms allowed were added.
   */
  lemma TailMissesLittle(k: nat, count: nat, mu: real, c: real)
    requires Mean(mu, c) && k > 0 && mu <= k as real
    ensures var terms := Terms(k, mu, 1, 1.0); var last := Prob(k + terms, mu, c);
      && ProbSum(k, count, mu, c) <= Tail(k, mu, c) + last * mu
      && (last <= EPSILON * Prob(k, mu, c) || terms == MAX_TERMS - 1)
  {
    hide Prob, Tail, Terms, NextTerm;
    var n := Terms(k, mu, 1, 1.0);
    LastTermIsSmall(k, mu, c, 1, 1.0);
    TailIsPartialSum(k, mu, c);
    ProbNonNegative(k + n, mu, c);
    MulMono(0.0, Prob(k + n, mu, c), 0.0, mu);
    if count <= n + 1 {
      SumGrows(k, count, n + 1, mu, c);
    } else {
      var m := k + n + 1;
      SumSplits(k, n + 1, count - (n + 1), mu, c);
      RestIsBounded(m, count - (n + 1), mu, c);
      var rest := ProbSum(m, count - (n + 1), mu, c);
      MulMono(rest, rest, 1.0, m as real - mu);
    }
  }

  // -------------------------------------------------------------- monotonicity

  /** A later start gives smaller terms, so the series ends no later and is no larger. */
  lemma {:induction false} SeriesShrinks(k: nat, mu: real, r: nat, small: real, large: real)
    requires 1 <= r && mu >= 0.0 && 0.0 <= small <= large
    ensures 0.0 <= Series(k + 1, mu, r, small) <= Series(k, mu, r, large)
    decreases MAX_TERMS - r
  {
    hide NextTerm;
    if r < MAX_TERMS {
      NextTermMono(small, large, mu, k + r, k + 1 + r);
      SeriesShrinks(k, mu, r + 1, NextTerm(small, mu, k + 1 + r), NextTerm(large, mu, k + r));
    }
  }

  lemma TailNonNegative(k: int, mu: real, c: real)
    requires Mean(mu, c)
    ensures Tail(k, mu, c) >= 0.0
  {
    hide Prob, Series;
    if k > 0 {
      ProbNonNegative(k, mu, c);
      SeriesShrinks(k, mu, 1, 1.0, 1.0);
      MulMono(0.0, Prob(k, mu, c), 0.0, 1.0 + Series(k, mu, 1, 1.0));
    }
  }

  /** One more block multiplies the tail by at most mu / (k + 1). */
  lemma TailShrinks(k: nat, mu: real, c: real)
    requires Mean(mu, c) && k > 0
    ensures 0.0 <= Tail(k + 1, mu, c) <= NextTerm(Tail(k, mu, c), mu, k + 1)
  {
    hide Prob, Series, NextTerm;
    SeriesShrinks(k, mu, 1, 1.0, 1.0);
    ProbStep(k, mu, c);
    ProbNonNegative(k + 1, mu, c);
    var p := Prob(k, mu, c);
    var s, t := 1.0 + Series(k, mu, 1, 1.0), 1.0 + Series(k + 1, mu, 1, 1.0);
    MulMono(Prob(k + 1, mu, c), Prob(k + 1, mu, c), t, s);
    NextTermScales(p, s, mu, k + 1, Prob(k + 1, mu, c), Tail(k, mu, c));
  }

  lemma ZeroMeanTail(c: real)
    requires 0.0 < c <= 1.0
    ensures Tail(1, 0.0, c) == 0.0
  {
    assert Pow(0.0, 1) == 0.0;
  }

  lemma TailStep(k: nat, mu: real, c: real)
    requires Mean(mu, c) && mu <= k as real
    ensures Tail(k + 1, mu, c) <= Tail(k, mu, c)
  {
    hide NextTerm;
    if k == 0 {
      ZeroMeanTail(c);
    } else {
      hide Tail;
      TailShrinks(k, mu, c);
      TailNonNegative(k, mu, c);
      NextTermAtMost(Tail(k, mu, c), mu, k + 1, 1.0);
    }
  }

  /** Above the mean, more blocks never mean a larger tail. */
  lemma {:induction false} TailIsAntitone(k: nat, j: nat, mu: real, c: real)
    requires Mean(mu, c) && mu <= k as real && k <= j
    ensures Tail(j, mu, c) <= Tail(k, mu, c)
    decreases j - k
  {
    hide Tail;
    if k < j {
      TailStep(k, mu, c);
      TailIsAntitone(k + 1, j, mu, c);
    }
  }

  // --------------------------------------------------------------- termination

  /** From twice the mean on, n more blocks divide the tail by at least n + 1. */
  lemma {:induction false} TailFades(k: nat, n: nat, mu: real, c: real)
    requires Mean(mu, c) && k > 0 && 2.0 * mu <= k as real
    ensures Tail(k + n, mu, c) * ((n + 1) as real) <= Tail(k, mu, c)
  {
    hide Tail, NextTerm;
    if n > 0 {
      TailFades(k, n - 1, mu, c);
      TailShrinks(k + n - 1, mu, c);
      TailNonNegative(k + n - 1, mu, c);
      NextTermAtMost(Tail(k + n - 1, mu, c), mu, k + n, 0.5);
      HalvingBeatsCounting(Tail(k + n, mu, c), Tail(k + n - 1, mu, c), n as real);
    }
  }

  lemma HalvingBeatsCounting(u: real, t: real, n: real)
    requires u <= t * 0.5 && t >= 0.0 && n >= 1.0
    ensures u * (n + 1.0) <= t * n
  {
    var h := t * 0.5;
    MulMono(0.0, h - u, 0.0, n + 1.0);
    assert (h - u) * (n + 1.0) == h * (n + 1.0) - u * (n + 1.0);
    MulMono(0.0, h, 0.0, n - 1.0);
    assert h * (n + 1.0) == h * (2.0 * n) - h * (n - 1.0);
    assert h * (2.0 * n) == t * n;
  }

  /** A block count at which the tail is certainly below a positive target. */
  function Enough(mu: real, c: real, target: real): (k: nat)
    requires Mean(mu, c) && target > 0.0
  {
    TailNonNegative(Floor0(Ceil(2.0 * mu)) + 1, mu, c);
    var k0 := Floor0(Ceil(2.0 * mu)) + 1;
    k0 + Floor0((Tail(k0, mu, c) / target).Floor)
  }

  function Floor0(x: int): nat { if x > 0 then x else 0 }

  lemma EnoughIsEnough(mu: real, c: real, target: real)
    requires Mean(mu, c) && target > 0.0
    ensures Tail(Enough(mu, c, target), mu, c) < target && Enough(mu, c, target) as real >= mu
  {
    hide Tail;
    var k0 := Floor0(Ceil(2.0 * mu)) + 1;
    var t := Tail(k0, mu, c);
    TailNonNegative(k0, mu, c);
    var n := Floor0((t / target).Floor);
    TailFades(k0, n, mu, c);
    BelowTarget(Tail(k0 + n, mu, c), t, target, (n + 1) as real);
  }

  lemma BelowTarget(u: real, t: real, target: real, m: real)
    requires u * m <= t && target > 0.0 && t / target < m && m > 0.0
    ensures u < target
  {
    var q := t / target;
    assert q * target == t;
    MulStrict(q, m, target);
    var d := u - target;
    assert m * d == u * m - m * target;
    if d >= 0.0 { MulMono(0.0, m, 0.0, d); }
  }

  /** The search ends exactly for positive targets: a tail is never negative. */
  lemma SearchEndsExactly(mu: real, c: real, target: real)
    requires Mean(mu, c)
    ensures (exists k: int :: k >= Ceil(mu) && Tail(k, mu, c) < target) <==> target > 0.0
  {
    if target > 0.0 {
      EnoughIsEnough(mu, c, target);
      assert Enough(mu, c, target) >= Ceil(mu);
    } else {
      forall k: int
        ensures Tail(k, mu, c) >= target
      {
        TailNonNegative(k, mu, c);
      }
    }
  }

  // -------------------------------------------------------------------- methods

  lemma TailFromParts(k: nat, mu: real, c: real, pk: real, sum: real)
    requires k > 0 && pk == Prob(k, mu, c) && sum == 1.0 + Series(k, mu, 1, 1.0)
    ensures pk * sum == Tail(k, mu, c)
  {
    hide Series, Prob;
  }

  method ComputePoissonTailDirect(k: int, mu: real, c: real) returns (tail: real)
    requires Mean(mu, c)
    ensures tail == Tail(k, mu, c)
  {
    if k <= 0 { return 1.0; }
    var factorial := 1.0;
    for i := 1 to k + 1
      invariant factorial == Factorial(i - 1)
    {
      factorial := factorial * (i as real);
    }
    var pk := c * Pow(mu, k) / factorial;
    assert pk == Prob(k, mu, c);
    hide NextTerm, Prob, Tail, Factorial;
    var sum, term, r := 1.0, 1.0, 1;
    while r < MAX_TERMS
      invariant 1 <= r <= MAX_TERMS
      invariant sum + Series(k, mu, r, term) == 1.0 + Series(k, mu, 1, 1.0)
    {
      assert Series(k, mu, r, term) == NextTerm(term, mu, k + r)
        + (if NextTerm(term, mu, k + r) < EPSILON then 0.0 else Series(k, mu, r + 1, NextTerm(term, mu, k + r)));
      term := NextTerm(term, mu, k + r);
      sum := sum + term;
      if term < EPSILON { break; }
      r := r + 1;
    }
    TailFromParts(k, mu, c, pk, sum);
    tail := pk * sum;
  }

  /** The least block count from the mean upwards whose tail is below the target; all larger counts are below it too. */
  method ComputeRequiredBtcBlocks(mu: real, c: real, target: real) returns (k: nat)
    requires Mean(mu, c) && target > 0.0
    ensures k >= Ceil(mu) && Tail(k, mu, c) < target
    ensures forall j: int :: Ceil(mu) <= j < k ==> Tail(j, mu, c) >= target
    ensures forall j: nat :: j >= k ==> Tail(j, mu, c) < target
  {
    k := Ceil(mu);
    ghost var enough := Enough(mu, c, target);
    EnoughIsEnough(mu, c, target);
    var tail := ComputePoissonTailDirect(k, mu, c);
    while tail >= target
      invariant Ceil(mu) <= k <= enough && tail == Tail(k, mu, c)
      invariant forall j: int :: Ceil(mu) <= j < k ==> Tail(j, mu, c) >= target
      decreases enough - k
    {
      k := k + 1;
      tail := ComputePoissonTailDirect(k, mu, c);
    }
    forall j: nat | j >= k
      ensures Tail(j, mu, c) < target
    {
      TailIsAntitone(k, j, mu, c);
    }
  }

  // ----------------------------------------------------------------- CLTV gate

  /** What the gate reads; `height` and `expiry` are None when the backend cannot say. */
  datatype CltvInput = CltvInput(
    refundLocktime: Option<int>,
    baseNow: int,
    timelockSeconds: Option<nat>,
    dispatchBudget: nat,
    finalityBudget: nat,
    lndBudget: nat,
    safetyMargin: nat,
    height: Option<int>,
    expiry: Option<int>,
    htlcExpiries: seq<int>,
    cltvBlocks: Option<nat>)

  function RemainingBase(g: CltvInput): nat {
    if g.refundLocktime.Some? && g.refundLocktime.value != 0 then Floor0(g.refundLocktime.value - g.baseNow)
    else if g.timelockSeconds.Some? then g.timelockSeconds.value
    else 43_200
  }

  /** Expected Bitcoin blocks while Base may still have to be resolved. */
  function MeanBlocks(g: CltvInput): (mu: real)
    ensures mu >= 0.0
  {
    ((RemainingBase(g) + g.dispatchBudget + g.finalityBudget + g.lndBudget + g.safetyMargin) as real)
      / NOMINAL_BLOCK_SECONDS
  }

  function Earlier(a: Option<int>, b: int): Option<int> { if a.Some? && a.value <= b then a else Some(b) }

  /** The invoice's expiry and every positive HTLC expiry, whichever is earliest. */
  function EarliestExpiry(expiry: Option<int>, htlcs: seq<int>): (e: Option<int>)
    ensures expiry.Some? ==> e.Some? && e.value <= expiry.value
    ensures forall i :: 0 <= i < |htlcs| && htlcs[i] > 0 ==> e.Some? && e.value <= htlcs[i]
    ensures e.Some? ==> e == expiry || (exists i :: 0 <= i < |htlcs| && htlcs[i] > 0 && htlcs[i] == e.value)
  {
    if htlcs == [] then expiry
    else
      var n := |htlcs| - 1;
      var rest := EarliestExpiry(expiry, htlcs[..n]);
      if htlcs[n] > 0 then Earlier(rest, htlcs[n]) else rest
  }

  function RemainingBlocks(g: CltvInput, height: int, expiry: int): nat {
    var left := Floor0(expiry - height);
    if g.cltvBlocks.Some? && g.cltvBlocks.value < left then g.cltvBlocks.value else left
  }

  /** The blocks left before any accepted HTLC expires cover the whole Base resolution up to the tail risk. */
  predicate WindowCovers(g: CltvInput, c: real, target: real) {
    && g.height.Some? && g.height.value > 0
    && EarliestExpiry(g.expiry, g.htlcExpiries).Some? && EarliestExpiry(g.expiry, g.htlcExpiries).value > 0
    && var left := RemainingBlocks(g, g.height.value, EarliestExpiry(g.expiry, g.htlcExpiries).value);
       left >= Ceil(MeanBlocks(g)) && Tail(left, MeanBlocks(g), c) < target
  }

  /**
   What a passing gate guarantees in wall-clock terms: from the height on, and
   before the invoice or any accepted HTLC expires, there are nominally enough
   blocks for the rest of the Base timelock and all four budgets.
   */
  lemma PassedGateLeavesTime(g: CltvInput, c: real, target: real, expiry: int)
    requires WindowCovers(g, c, target)
    requires g.expiry == Some(expiry) || (expiry > 0 && expiry in g.htlcExpiries)
    ensures var budgets := g.dispatchBudget + g.finalityBudget + g.lndBudget + g.safetyMargin;
      var base := if g.refundLocktime.Some? && g.refundLocktime.value != 0
                  then (if g.refundLocktime.value >= g.baseNow then g.refundLocktime.value - g.baseNow else 0)
                  else if g.timelockSeconds.Some? then g.timelockSeconds.value else 43_200;
      && g.height.Some? && g.height.value > 0
      && (base + budgets > 0 ==> expiry > g.height.value)
      && (expiry > g.height.value ==> (expiry - g.height.value) * 600 >= base + budgets)
      && (g.cltvBlocks.Some? ==> g.cltvBlocks.value * 600 >= base + budgets)
  {
    hide Tail;
    var height, earliest := g.height.value, EarliestExpiry(g.expiry, g.htlcExpiries).value;
    var left := RemainingBlocks(g, height, earliest);
    assert earliest <= expiry;
    BlocksCoverSeconds(left,
      RemainingBase(g) + g.dispatchBudget + g.finalityBudget + g.lndBudget + g.safetyMargin);
  }

  lemma BlocksCoverSeconds(blocks: nat, seconds: nat)
    requires blocks >= Ceil(seconds as real / NOMINAL_BLOCK_SECONDS)
    ensures blocks * 600 >= seconds
  {
    var mean := seconds as real / NOMINAL_BLOCK_SECONDS;
    assert blocks as real >= mean;
    assert mean * 600.0 == seconds as real;
  }

  /**
   And a gate fails only for lack of information or of blocks: with a known
   height and expiry, every block count that covers the time still needed and
   has a tail below the target is more than what is left.
   */
  lemma FailedGateLacksBlocks(g: CltvInput, c: real, target: real, seconds: nat, required: nat)
    requires 0.0 < c <= 1.0 && target > 0.0 && !WindowCovers(g, c, target)
    requires var base := if g.refundLocktime.Some? && g.refundLocktime.value != 0
                         then (if g.refundLocktime.value >= g.baseNow then g.refundLocktime.value - g.baseNow else 0)
                         else if g.timelockSeconds.Some? then g.timelockSeconds.value else 43_200;
      seconds == base + g.dispatchBudget + g.finalityBudget + g.lndBudget + g.safetyMargin
    requires required * 600 >= seconds && Tail(required, seconds as real / 600.0, c) < target
    ensures var soonest := EarliestExpiry(g.expiry, g.htlcExpiries);
      || g.height.None? || g.height.value <= 0 || soonest.None? || soonest.value <= 0
      || soonest.value - g.height.value < required || (g.cltvBlocks.Some? && g.cltvBlocks.value < required)
  {
    hide Tail;
    var soonest := EarliestExpiry(g.expiry, g.htlcExpiries);
    assert MeanBlocks(g) == seconds as real / 600.0;
    assert required as real >= MeanBlocks(g);
    if g.height.Some? && g.height.value > 0 && soonest.Some? && soonest.value > 0 {
      var left := RemainingBlocks(g, g.height.value, soonest.value);
      if left >= required {
        TailIsAntitone(required, left, MeanBlocks(g), c);
      }
    }
  }

  /** Passes exactly when the window covers; an unknown height or expiry never passes. */
  method AssertLightningCltvSafety(g: CltvInput, c: real, target: real) returns (safe: bool)
    requires 0.0 < c <= 1.0 && target > 0.0
    ensures safe <==> WindowCovers(g, c, target)
  {
    hide Tail;
    var required := ComputeRequiredBtcBlocks(MeanBlocks(g), c, target);
    if g.height.None? || g.height.value <= 0 { return false; }
    var expiry := g.expiry;
    for i := 0 to |g.htlcExpiries|
      invariant expiry == EarliestExpiry(g.expiry, g.htlcExpiries[..i])
    {
      assert g.htlcExpiries[..i + 1][..i] == g.htlcExpiries[..i];
      if g.htlcExpiries[i] > 0 { expiry := Earlier(expiry, g.htlcExpiries[i]); }
    }
    assert g.htlcExpiries[..|g.htlcExpiries|] == g.htlcExpiries;
    if expiry.None? || expiry.value <= 0 { return false; }
    var left := RemainingBlocks(g, g.height.value, expiry.value);
    safe := left >= required;
  }
}
