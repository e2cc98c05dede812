/** The authoritative price: filtering, dispersion and a median that a minority of feeds cannot move. */
module PriceAggregator {
  import opened Wrappers

  /** One feed's answer; prices are in micro-USD per bitcoin. */
  datatype Sample = Sample(price: int, timestamp: int)

  datatype Policy = Policy(maxStale: int, minFeeds: int, maxDispersionBps: int)

  const CLOCK_SKEW_MS: int := 5_000

  datatype PriceError = TooFewFeeds(accepted: nat) | NoSample | NonPositive(price: int) | Dispersed(bps: int)

  predicate Acceptable(p: Policy, s: Sample, now: int) { -CLOCK_SKEW_MS <= now - s.timestamp <= p.maxStale }

  /** The answers that arrived and are neither stale nor from the future, in feed order. */
  function Accepted(p: Policy, answers: seq<Option<Sample>>, now: int): seq<int> {
    if answers == [] then []
    else
      var rest := Accepted(p, answers[..|answers| - 1], now);
      var last := answers[|answers| - 1];
      if last.Some? && Acceptable(p, last.value, now) then rest + [last.value.price] else rest
  }

  predicate Sorted(s: seq<int>) { forall i, j :: 0 <= i < j < |s| ==> s[i] <= s[j] }

  /** Insertion into an ascending sequence, after equal elements. */
  function Insert(s: seq<int>, x: int): seq<int> {
    if s == [] || s[|s| - 1] <= x then s + [x] else Insert(s[..|s| - 1], x) + [s[|s| - 1]]
  }

  /** The ascending order of the prices; any comparison sort returns it. */
  function Ascending(s: seq<int>): (r: seq<int>)
    ensures |r| == |s|
  {
    if s == [] then [] else
      InsertLength(Ascending(s[..|s| - 1]), s[|s| - 1]);
      Insert(Ascending(s[..|s| - 1]), s[|s| - 1])
  }

  lemma {:induction false} InsertLength(s: seq<int>, x: int)
    ensures |Insert(s, x)| == |s| + 1
    decreases |s|
  {
    if s != [] { InsertLength(s[..|s| - 1], x); }
  }

  lemma {:induction false} InsertKeeps(s: seq<int>, x: int)
    ensures multiset(Insert(s, x)) == multiset(s) + multiset{x}
    decreases |s|
  {
    if s != [] && s[|s| - 1] > x {
      InsertKeeps(s[..|s| - 1], x);
      assert s == s[..|s| - 1] + [s[|s| - 1]];
    }
  }

  lemma {:induction false} InsertSorts(s: seq<int>, x: int)
    requires Sorted(s)
    ensures Sorted(Insert(s, x))
    ensures forall y :: y in Insert(s, x) ==> y in s || y == x
    decreases |s|
  {
    if s != [] && s[|s| - 1] > x {
      var n := |s| - 1;
      InsertSorts(s[..n], x);
      var r := Insert(s[..n], x);
      assert forall i :: 0 <= i < |r| ==> r[i] in r;
      assert forall i :: 0 <= i < |r| ==> r[i] <= s[n];
    }
  }

  /** The sorted prices are in order and are the same prices, each as often as before. */
  lemma {:induction false} AscendingIsSorted(s: seq<int>)
    ensures Sorted(Ascending(s)) && multiset(Ascending(s)) == multiset(s)
    decreases |s|
  {
    if s != [] {
      var n := |s| - 1;
      AscendingIsSorted(s[..n]);
      InsertSorts(Ascending(s[..n]), s[n]);
      InsertKeeps(Ascending(s[..n]), s[n]);
      assert s == s[..n] + [s[n]];
    }
  }

  lemma AscendingHas(s: seq<int>, i: nat)
    requires i < |s|
    ensures s[i] in Ascending(s)
  {
    AscendingIsSorted(s);
    assert s[i] in multiset(s);
    assert s[i] in multiset(Ascending(s));
  }

  function Median(sorted: seq<int>): int
    requires sorted != []
  {
    var mid := |sorted| / 2;
    if |sorted| % 2 == 1 then sorted[mid] else (sorted[mid - 1] + sorted[mid]) / 2
  }

  function DispersionBps(low: int, high: int): int
    requires low > 0
  {
    (high - low) * 10_000 / low
  }

  function PriceOf(p: Policy, accepted: seq<int>): Result<int, PriceError> {
    if |accepted| < p.minFeeds then Err(TooFewFeeds(|accepted|))
    else if accepted == [] then Err(NoSample)
    else
      var sorted := Ascending(accepted);
      var low, high := sorted[0], sorted[|sorted| - 1];
      if low <= 0 then Err(NonPositive(low))
      else if DispersionBps(low, high) > p.maxDispersionBps then Err(Dispersed(DispersionBps(low, high)))
      else Ok(Median(sorted))
  }

  // ------------------------------------------------------------- robust median

  function CountWithin(s: seq<int>, low: int, high: int): nat {
    if s == [] then 0
    else CountWithin(s[..|s| - 1], low, high) + (if low <= s[|s| - 1] <= high then 1 else 0)
  }

  /** Counting does not depend on the order of the samples. */
  lemma {:induction false} CountInsert(s: seq<int>, x: int, low: int, high: int)
    ensures CountWithin(Insert(s, x), low, high) == CountWithin(s, low, high) + (if low <= x <= high then 1 else 0)
    decreases |s|
  {
    if s == [] || s[|s| - 1] <= x {
      assert (s + [x])[..|s|] == s;
    } else {
      var n := |s| - 1;
      CountInsert(s[..n], x, low, high);
      InsertLength(s[..n], x);
      assert (Insert(s[..n], x) + [s[n]])[..n + 1] == Insert(s[..n], x);
    }
  }

  lemma {:induction false} CountAscending(s: seq<int>, low: int, high: int)
    ensures CountWithin(Ascending(s), low, high) == CountWithin(s, low, high)
    decreases |s|
  {
    if s != [] {
      CountAscending(s[..|s| - 1], low, high);
      CountInsert(Ascending(s[..|s| - 1]), s[|s| - 1], low, high);
    }
  }

  lemma {:induction false} CountSplits(s: seq<int>, k: nat, low: int, high: int)
    requires k <= |s|
    ensures CountWithin(s, low, high) == CountWithin(s[..k], low, high) + CountWithin(s[k..], low, high)
    decreases |s|
  {
    if k == |s| {
      assert s[..k] == s && s[k..] == [];
    } else {
      var n := |s| - 1;
      CountSplits(s[..n], k, low, high);
      assert s[..n][..k] == s[..k] && s[..n][k..] == s[k..][..n - k] && s[k..][n - k] == s[n];
    }
  }

  lemma {:induction false} CountAtMost(s: seq<int>, low: int, high: int)
    ensures CountWithin(s, low, high) <= |s|
    ensures (forall i :: 0 <= i < |s| ==> s[i] < low || s[i] > high) ==> CountWithin(s, low, high) == 0
    decreases |s|
  {
    if s != [] { CountAtMost(s[..|s| - 1], low, high); }
  }

  /** In a sorted sequence an element below the range bounds the count by what follows it. */
  lemma BelowBounds(s: seq<int>, k: nat, low: int, high: int)
    requires Sorted(s) && k < |s|
    ensures s[k] < low ==> CountWithin(s, low, high) <= |s| - k - 1
    ensures s[k] > high ==> CountWithin(s, low, high) <= k
  {
    CountSplits(s, k + 1, low, high);
    CountAtMost(s[..k + 1], low, high);
    CountAtMost(s[k + 1..], low, high);
    CountSplits(s, k, low, high);
    CountAtMost(s[..k], low, high);
    CountAtMost(s[k..], low, high);
  }

  /** Around the middle of a sorted sequence lies what a strict majority agrees on. */
  lemma MiddleIsWithin(s: seq<int>, low: int, high: int)
    requires Sorted(s) && s != [] && 2 * CountWithin(s, low, high) > |s|
    ensures low <= Median(s) <= high
  {
    var mid := |s| / 2;
    BelowBounds(s, mid, low, high);
    if |s| % 2 == 0 { BelowBounds(s, mid - 1, low, high); }
  }

  /**
   If a strict majority of the accepted samples lies between the lowest and the
   highest honest price, so does the reference price, for odd and even counts.
   */
  lemma RobustMedian(p: Policy, answers: seq<Option<Sample>>, now: int, low: int, high: int)
    requires var accepted := Accepted(p, answers, now);
      PriceOf(p, accepted).Ok? && 2 * CountWithin(accepted, low, high) > |accepted|
    ensures low <= PriceOf(p, Accepted(p, answers, now)).value <= high
  {
    var accepted := Accepted(p, answers, now);
    CountAscending(accepted, low, high);
    AscendingIsSorted(accepted);
    MiddleIsWithin(Ascending(accepted), low, high);
  }

  // ---------------------------------------------------------------- dispersion

  lemma DispersionBound(low: int, high: int, bps: int)
    requires 0 < low <= high
    ensures DispersionBps(low, high) <= bps <==> (high - low) * 10_000 < (bps + 1) * low
  {
    var x, q := (high - low) * 10_000, DispersionBps(low, high);
    assert q * low <= x < (q + 1) * low;
    if q <= bps {
      assert (q + 1) * low <= (bps + 1) * low by { Scale(q + 1, bps + 1, low); }
    } else {
      assert (bps + 1) * low <= q * low by { Scale(bps + 1, q, low); }
    }
  }

  lemma Scale(a: int, b: int, m: int)
    requires a <= b && m >= 0
    ensures a * m <= b * m
  {
  }

  /** Any two accepted samples, and the reference price, are closer than the dispersion limit allows. */
  lemma AcceptedAreClose(p: Policy, accepted: seq<int>, i: nat, j: nat)
    requires PriceOf(p, accepted).Ok? && i < |accepted| && j < |accepted|
    ensures var low := Ascending(accepted)[0]; var m := PriceOf(p, accepted).value;
      && 0 < low && (forall k :: 0 <= k < |accepted| ==> low <= accepted[k])
      && (accepted[i] - accepted[j]) * 10_000 < (p.maxDispersionBps + 1) * low
      && (accepted[i] - m) * 10_000 < (p.maxDispersionBps + 1) * low
      && (m - accepted[j]) * 10_000 < (p.maxDispersionBps + 1) * low
  {
    hide Ascending, DispersionBps;
    var sorted := Ascending(accepted);
    var low, high := sorted[0], sorted[|sorted| - 1];
    AscendingIsSorted(accepted);
    forall k | 0 <= k < |accepted|
      ensures low <= accepted[k] <= high
    {
      AscendingHas(accepted, k);
    }
    DispersionBound(low, high, p.maxDispersionBps);
    var mid := |sorted| / 2;
    assert low <= sorted[mid] <= high;
    assert low <= Median(sorted) <= high;
  }

  // ------------------------------------------------------------- exact verdicts

  /** Arrived, at most five seconds ahead of the clock and at most the stale limit behind it. */
  predicate InTime(p: Policy, a: Option<Sample>, now: int) {
    a.Some? && a.value.timestamp <= now + 5_000 && a.value.timestamp >= now - p.maxStale
  }

  function Timely(p: Policy, answers: seq<Option<Sample>>, now: int): set<nat> {
    set i | 0 <= i < |answers| && InTime(p, answers[i], now)
  }

  function TimelyAt(p: Policy, answers: seq<Option<Sample>>, now: int, price: int): set<nat> {
    set i | 0 <= i < |answers| && InTime(p, answers[i], now) && answers[i].value.price == price
  }

  lemma TimelyGrows(p: Policy, answers: seq<Option<Sample>>, last: Option<Sample>, now: int, price: int)
    ensures var n := |answers|;
      Timely(p, answers + [last], now) == Timely(p, answers, now) + (if InTime(p, last, now) then {n} else {})
    ensures var n := |answers|;
      TimelyAt(p, answers + [last], now, price)
         == TimelyAt(p, answers, now, price) + (if InTime(p, last, now) && last.value.price == price then {n} else {})
  {
  }

  lemma AcceptedGrows(p: Policy, answers: seq<Option<Sample>>, last: Option<Sample>, now: int)
    ensures Accepted(p, answers + [last], now)
         == Accepted(p, answers, now) + (if InTime(p, last, now) then [last.value.price] else [])
  {
    assert (answers + [last])[..|answers|] == answers;
  }

  lemma {:induction false} AcceptedCount(p: Policy, answers: seq<Option<Sample>>, now: int)
    ensures |Accepted(p, answers, now)| == |Timely(p, answers, now)|
    decreases |answers|
  {
    if answers != [] {
      var before, last := answers[..|answers| - 1], answers[|answers| - 1];
      AcceptedCount(p, before, now);
      TimelyGrows(p, before, last, now, 0);
      AcceptedGrows(p, before, last, now);
      assert answers == before + [last];
      assert |before| !in Timely(p, before, now);
      hide Timely, TimelyAt, Accepted, InTime;
    }
  }

  /** Exactly the answers in time are accepted, each once and at its own price. */
  lemma {:induction false} AcceptedExactly(p: Policy, answers: seq<Option<Sample>>, now: int, price: int)
    ensures |Accepted(p, answers, now)| == |Timely(p, answers, now)|
    ensures multiset(Accepted(p, answers, now))[price] == |TimelyAt(p, answers, now, price)|
    decreases |answers|
  {
    AcceptedCount(p, answers, now);
    if answers != [] {
      var before, last := answers[..|answers| - 1], answers[|answers| - 1];
      AcceptedExactly(p, before, now, price);
      TimelyGrows(p, before, last, now, price);
      AcceptedGrows(p, before, last, now);
      assert answers == before + [last];
      assert |before| !in TimelyAt(p, before, now, price);
      hide Timely, TimelyAt, Accepted, InTime;
    }
  }

  /** A price is given exactly if enough answers were accepted, all are positive and no two lie too far apart. */
  lemma PricedExactly(p: Policy, accepted: seq<int>)
    ensures PriceOf(p, accepted).Ok? <==>
      && |accepted| >= p.minFeeds && accepted != []
      && (forall i :: 0 <= i < |accepted| ==> accepted[i] > 0)
      && (forall i, j :: 0 <= i < |accepted| && 0 <= j < |accepted| ==>
            (accepted[i] - accepted[j]) * 10_000 < (p.maxDispersionBps + 1) * accepted[j])
  {
    if accepted != [] {
      hide Ascending, DispersionBps;
      var sorted := Ascending(accepted);
      var n := |sorted|;
      AscendingIsSorted(accepted);
      forall i | 0 <= i < |accepted|
        ensures sorted[0] <= accepted[i] <= sorted[n - 1]
      {
        AscendingHas(accepted, i);
      }
      var first := PositionOf(accepted, sorted[0]);
      var last := PositionOf(accepted, sorted[n - 1]);
      if sorted[0] > 0 {
        DispersionBound(sorted[0], sorted[n - 1], p.maxDispersionBps);
        if (sorted[n - 1] - sorted[0]) * 10_000 < (p.maxDispersionBps + 1) * sorted[0] {
          forall i, j | 0 <= i < |accepted| && 0 <= j < |accepted|
            ensures (accepted[i] - accepted[j]) * 10_000 < (p.maxDispersionBps + 1) * accepted[j]
          {
            SpreadWithin(sorted[0], accepted[j], accepted[i], sorted[n - 1], p.maxDispersionBps + 1);
          }
        }
      }
    }
  }

  lemma SpreadWithin(low: int, a: int, b: int, high: int, bound: int)
    requires 0 < low <= a <= high && b <= high && (high - low) * 10_000 < bound * low
    ensures (b - a) * 10_000 < bound * a
  {
    assert bound > 0;
    Scale(low, a, bound);
  }

  lemma PositionOf(accepted: seq<int>, price: int) returns (i: nat)
    requires price in Ascending(accepted)
    ensures i < |accepted| && accepted[i] == price
  {
    AscendingIsSorted(accepted);
    assert price in multiset(Ascending(accepted));
    assert price in multiset(accepted);
    i :| i < |accepted| && accepted[i] == price;
  }

  /** What was missing is told in this order: answers, positive prices, agreement. */
  lemma RefusedExactly(p: Policy, accepted: seq<int>)
    ensures PriceOf(p, accepted).Err? ==>
      match PriceOf(p, accepted).error
      case TooFewFeeds(n) => n == |accepted| < p.minFeeds
      case NoSample => accepted == [] && p.minFeeds <= 0
      case NonPositive(price) =>
        && |accepted| >= p.minFeeds && price <= 0 && price in accepted
        && forall i :: 0 <= i < |accepted| ==> price <= accepted[i]
      case Dispersed(bps) =>
        && |accepted| >= p.minFeeds && bps > p.maxDispersionBps
        && forall i :: 0 <= i < |accepted| ==> accepted[i] > 0
  {
    if accepted != [] {
      hide Ascending, DispersionBps;
      var low := Ascending(accepted)[0];
      AscendingIsSorted(accepted);
      forall i | 0 <= i < |accepted|
        ensures low <= accepted[i]
      {
        AscendingHas(accepted, i);
      }
      var first := PositionOf(accepted, low);
    }
  }

  /**
   The reference price is the middle price for an odd count and otherwise the
   mean of the two middle ones, rounded down, in whatever way the prices are sorted.
   */
  lemma MedianExactly(p: Policy, accepted: seq<int>, sorted: seq<int>)
    requires PriceOf(p, accepted).Ok? && Sorted(sorted) && multiset(sorted) == multiset(accepted)
    ensures var n, m := |accepted|, PriceOf(p, accepted).value;
      && |sorted| == n > 0
      && (n % 2 == 1 ==> m == sorted[n / 2])
      && (n % 2 == 0 ==> 2 * m <= sorted[n / 2 - 1] + sorted[n / 2] < 2 * m + 2)
  {
    AscendingIsSorted(accepted);
    SortedOnce(sorted, Ascending(accepted));
  }

  lemma LeastFirst(a: seq<int>, b: seq<int>)
    requires Sorted(a) && a != [] && b != [] && multiset(a) == multiset(b)
    ensures a[0] <= b[0]
  {
    assert b[0] in multiset(a);
  }

  lemma {:induction false} SortedOnce(a: seq<int>, b: seq<int>)
    requires Sorted(a) && Sorted(b) && multiset(a) == multiset(b)
    ensures a == b
    decreases |a|
  {
    assert |a| == |multiset(a)| == |multiset(b)| == |b|;
    if a != [] {
      LeastFirst(a, b);
      LeastFirst(b, a);
      assert a == [a[0]] + a[1..] && b == [b[0]] + b[1..];
      assert multiset(a) == multiset{a[0]} + multiset(a[1..]);
      assert multiset(b) == multiset{a[0]} + multiset(b[1..]);
      assert multiset(a[1..]) == multiset(a) - multiset{a[0]} == multiset(b[1..]);
      SortedOnce(a[1..], b[1..]);
    }
  }

  // ---------------------------------------------------------------- the method

  /** Keeps the answers that are neither stale nor from the future. */
  method ValidSamples(policy: Policy, answers: seq<Option<Sample>>, now: int) returns (valid: seq<int>)
    ensures valid == Accepted(policy, answers, now)
  {
    valid := [];
    for i := 0 to |answers|
      invariant valid == Accepted(policy, answers[..i], now)
    {
      assert answers[..i + 1][..i] == answers[..i];
      if answers[i].Some? {
        var age := now - answers[i].value.timestamp;
        if age <= policy.maxStale && age >= -CLOCK_SKEW_MS { valid := valid + [answers[i].value.price]; }
      }
    }
    assert answers[..|answers|] == answers;
  }

  method GetAuthoritativePrice(policy: Policy, answers: seq<Option<Sample>>, now: int)
    returns (price: Result<int, PriceError>)
    ensures price == PriceOf(policy, Accepted(policy, answers, now))
  {
    hide Accepted, Ascending, DispersionBps;
    var valid := ValidSamples(policy, answers, now);
    if |valid| < policy.minFeeds { return Err(TooFewFeeds(|valid|)); }
    if valid == [] { return Err(NoSample); }
    valid := Ascending(valid);
    var minPrice, maxPrice := valid[0], valid[|valid| - 1];
    if minPrice <= 0 { return Err(NonPositive(minPrice)); }
    var dispersion := DispersionBps(minPrice, maxPrice);
    if dispersion > policy.maxDispersionBps { return Err(Dispersed(dispersion)); }
    var mid := |valid| / 2;
    if |valid| % 2 == 1 {
      price := Ok(valid[mid]);
    } else {
      price := Ok((valid[mid - 1] + valid[mid]) / 2);
    }
  }
}
