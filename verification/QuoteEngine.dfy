/** The quote formula over integers: conservation, precision, monotonicity and splitting. */
module QuoteEngine {
  import opened Wrappers
  import DecimalText

  const SATS_PER_BTC: nat := 100_000_000

  const BPS: nat := 10_000

  /** `gross` and everything derived from it are in millionths of a dollar. */
  datatype Policy = Policy(spreadBps: nat, fixedFee: nat, minSats: nat, maxNet: nat)

  datatype Quote = Quote(sats: nat, gross: nat, spread: nat, fee: nat, net: nat, rate: string)

  datatype QuoteError = TooFewSats | OutputTooLow(gross: nat, deductions: nat) | NetTooHigh(net: nat)

  function Gross(sats: nat, price: nat): nat { sats * price / SATS_PER_BTC }

  function Spread(gross: nat, bps: nat): nat { gross * bps / BPS }

  /** The net amount before the checks; it may be negative. */
  function Net(p: Policy, sats: nat, price: nat): int {
    Gross(sats, price) - Spread(Gross(sats, price), p.spreadBps) - p.fixedFee
  }

  function EffectiveRate(net: nat, sats: nat): nat
    requires sats > 0
  {
    net * SATS_PER_BTC / sats
  }

  /** Nothing times a price is nothing, so a quote that passes the output check is for at least one satoshi. */
  lemma NoSatsNoGross(price: nat)
    ensures Gross(0, price) == 0
  {
  }

  function CreateQuote(p: Policy, sats: int, price: nat): Result<Quote, QuoteError> {
    if sats < p.minSats then Err(TooFewSats)
    else
      var gross := Gross(sats, price);
      var spread := Spread(gross, p.spreadBps);
      if gross <= spread + p.fixedFee then Err(OutputTooLow(gross, spread + p.fixedFee))
      else
        var net := gross - (spread + p.fixedFee);
        if net > p.maxNet then Err(NetTooHigh(net))
        else
          NoSatsNoGross(price);
          Ok(Quote(sats, gross, spread, p.fixedFee, net, DecimalText.PrintRate(EffectiveRate(net, sats))))
  }

  /** A quote is issued exactly within its bounds; what the client gets, the spread and the fee make up the gross. */
  lemma QuoteConserves(p: Policy, sats: int, price: nat)
    ensures CreateQuote(p, sats, price).Ok? <==> sats >= p.minSats && 0 < Net(p, sats, price) <= p.maxNet
    ensures CreateQuote(p, sats, price).Ok? ==>
      var q := CreateQuote(p, sats, price).value;
      && q.gross == q.net + q.spread + q.fee
      && q.net == Net(p, q.sats, price) && q.sats == sats && q.fee == p.fixedFee
      && DecimalText.ParseMicroUsd(q.rate) == Some(EffectiveRate(q.net, q.sats))
  {
    NoSatsNoGross(price);
    hide DecimalText.PrintRate, DecimalText.ParseMicroUsd, Gross, Spread;
    var r := CreateQuote(p, sats, price);
    if r.Ok? { DecimalText.RateRoundTrip(EffectiveRate(r.value.net, r.value.sats)); }
  }

  /** Every division of a quote rounds down; the rate it prints never promises more than is paid. */
  lemma QuoteRoundsDown(p: Policy, sats: int, price: nat)
    requires CreateQuote(p, sats, price).Ok?
    ensures var q := CreateQuote(p, sats, price).value;
      && q.gross * 100_000_000 <= q.sats * price < (q.gross + 1) * 100_000_000
      && q.spread * 10_000 <= q.gross * p.spreadBps < (q.spread + 1) * 10_000
      && (exists rate: nat :: DecimalText.ParseMicroUsd(q.rate) == Some(rate)
            && rate * q.sats <= q.net * 100_000_000 < (rate + 1) * q.sats)
  {
    QuoteConserves(p, sats, price);
    hide DecimalText.PrintRate, DecimalText.ParseMicroUsd;
    var q := CreateQuote(p, sats, price).value;
    FloorBounds(q.sats * price, SATS_PER_BTC);
    FloorBounds(q.gross * p.spreadBps, BPS);
    FloorBounds(q.net * SATS_PER_BTC, q.sats);
    var rate := EffectiveRate(q.net, q.sats);
    assert DecimalText.ParseMicroUsd(q.rate) == Some(rate);
  }

  /** A refusal names its reason: too small, nothing left after the deductions, or above what is allowed. */
  lemma RefusedExactly(p: Policy, sats: int, price: nat)
    ensures var r := CreateQuote(p, sats, price);
      && (r == Err(TooFewSats) <==> sats < p.minSats)
      && ((r.Err? && r.error.OutputTooLow?) <==> sats >= p.minSats && Net(p, sats, price) <= 0)
      && (r.Err? && r.error.OutputTooLow? ==>
            r.error.gross == Gross(sats, price) && r.error.gross - r.error.deductions == Net(p, sats, price))
      && ((r.Err? && r.error.NetTooHigh?) <==> sats >= p.minSats && Net(p, sats, price) > p.maxNet)
      && (r.Err? && r.error.NetTooHigh? ==> r.error.net == Net(p, sats, price))
  {
    hide DecimalText.PrintRate, Gross, Spread;
  }

  // -------------------------------------------------------------- arithmetic

  lemma MulMono(a: nat, b: nat, m: nat)
    requires a <= b
    ensures a * m <= b * m
  {
  }

  /** Floor division is bracketed by its multiples. */
  lemma FloorBounds(n: nat, d: nat)
    requires d > 0
    ensures n / d * d <= n < (n / d + 1) * d
  {
  }

  lemma FloorMono(a: nat, b: nat, d: nat)
    requires a <= b && d > 0
    ensures a / d <= b / d
  {
    FloorBounds(a, d);
    FloorBounds(b, d);
    if a / d > b / d { MulMono(b / d + 1, a / d, d); }
  }

  lemma FloorIs(n: nat, d: nat, q: nat)
    requires d > 0 && q * d <= n < (q + 1) * d
    ensures n / d == q
  {
    FloorBounds(n, d);
    var z := n / d;
    if z < q { MulMono(z + 1, q, d); }
    if z > q { MulMono(q + 1, z, d); }
  }

  lemma Multiples(x: nat, y: nat, d: nat)
    ensures (x + y) * d == x * d + y * d
    ensures (x + y + 1) * d == x * d + y * d + d
    ensures (x + y + 2) * d == x * d + y * d + d + d
    ensures (x + 1) * d == x * d + d && (y + 1) * d == y * d + d
  {
  }

  /** Dividing a sum gives the sum of the quotients, or one more. */
  lemma FloorSum(a: nat, b: nat, d: nat)
    requires d > 0
    ensures a / d + b / d <= (a + b) / d <= a / d + b / d + 1
  {
    var x, y := a / d, b / d;
    FloorBounds(a, d);
    FloorBounds(b, d);
    Multiples(x, y, d);
    FloorIs(a + b, d, if a + b < (x + y + 1) * d then x + y else x + y + 1);
  }

  lemma FloorShift(a: nat, k: nat, d: nat)
    requires d > 0
    ensures (a + k * d) / d == a / d + k
  {
    var q := a / d;
    FloorBounds(a, d);
    Multiples(q, k, d);
    FloorIs(a + k * d, d, q + k);
  }

  /** What is left of a gross amount after the spread. */
  function Kept(gross: nat, bps: nat): int { gross - Spread(gross, bps) }

  /** At most one unit of gross more keeps at least as much: the spread never grows faster than the gross. */
  lemma KeptSum(x: nat, y: nat, bps: nat)
    requires bps <= BPS
    ensures Kept(x, bps) + Kept(y, bps) <= Kept(x + y, bps) + 1
  {
    assert (x + y) * bps == x * bps + y * bps;
    FloorSum(x * bps, y * bps, BPS);
  }

  lemma KeptMono(x: nat, y: nat, bps: nat)
    requires bps <= BPS && x <= y
    ensures Kept(x, bps) <= Kept(y, bps)
  {
    var more := y - x;
    assert y * bps == x * bps + more * bps;
    MulMono(bps, BPS, more);
    assert y * bps <= x * bps + more * BPS;
    FloorMono(y * bps, x * bps + more * BPS, BPS);
    FloorShift(x * bps, more, BPS);
  }

  // ------------------------------------------------------------ main theorems

  const SCALE: int := 1_000_000_000_000

  /** The net amount times 10^12, without any rounding. */
  function ExactNetScaled(p: Policy, sats: nat, price: nat): int {
    sats * price * (BPS - p.spreadBps) - p.fixedFee * SCALE
  }

  lemma FloorRemainder(n: nat, d: nat)
    requires d > 0
    ensures n == n / d * d + n % d && 0 <= n % d < d
  {
  }

  /** The two roundings together move the net by less than one unit from its exact rational value. */
  lemma NetIsPrecise(p: Policy, sats: nat, price: nat)
    requires p.spreadBps <= BPS
    ensures -SCALE < Net(p, sats, price) * SCALE - ExactNetScaled(p, sats, price) < SCALE
  {
    var product := sats * price;
    var gross, bps := Gross(sats, price), p.spreadBps;
    var spread := Spread(gross, bps);
    var lost, over := product % SATS_PER_BTC, gross * bps % BPS;
    FloorRemainder(product, SATS_PER_BTC);
    FloorRemainder(gross * bps, BPS);
    assert product == gross * SATS_PER_BTC + lost;
    assert gross * bps == spread * BPS + over;
    var keep := BPS - bps;
    Distributes(gross * SATS_PER_BTC, lost, keep);
    assert product * keep == (gross * SATS_PER_BTC) * keep + lost * keep;
    assert (gross * SATS_PER_BTC) * keep == SATS_PER_BTC * (gross * keep);
    assert gross * keep == gross * BPS - gross * bps;
    assert 0 <= lost * keep <= lost * BPS by { MulMono(keep, BPS, lost); }
    assert SATS_PER_BTC * BPS == SCALE;
  }

  lemma Distributes(a: nat, b: nat, m: nat)
    ensures (a + b) * m == a * m + b * m
  {
  }

  lemma GrossMono(a: nat, b: nat, price: nat)
    requires a <= b
    ensures Gross(a, price) <= Gross(b, price)
  {
    MulMono(a, b, price);
    FloorMono(a * price, b * price, SATS_PER_BTC);
  }

  /** More satoshis never buy less. */
  lemma NetIsMonotone(p: Policy, a: nat, b: nat, price: nat)
    requires p.spreadBps <= BPS && a <= b
    ensures Net(p, a, price) <= Net(p, b, price)
  {
    GrossMono(a, b, price);
    KeptMono(Gross(a, price), Gross(b, price), p.spreadBps);
  }

  /** Two swaps pay at most one unit more than a single one, before the second fee is taken off. */
  lemma SplitGainsAtMostOne(p: Policy, a: nat, b: nat, price: nat)
    requires p.spreadBps <= BPS
    ensures Net(p, a, price) + Net(p, b, price) <= Net(p, a + b, price) + 1 - p.fixedFee
  {
    var x, y, z := Gross(a, price), Gross(b, price), Gross(a + b, price);
    assert (a + b) * price == a * price + b * price;
    FloorSum(a * price, b * price, SATS_PER_BTC);
    KeptSum(x, y, p.spreadBps);
    KeptMono(x + y, z, p.spreadBps);
  }

  /** At no price do two swaps pay more than one over the same satoshis. */
  ghost predicate NeverPaysToSplit(p: Policy) {
    forall a: nat, b: nat, price: nat :: Net(p, a, price) + Net(p, b, price) <= Net(p, a + b, price)
  }

  /** Without a spread, or when the spread takes everything, there is no second rounding to gain from. */
  lemma OneRoundingNeverPays(p: Policy, a: nat, b: nat, price: nat)
    requires p.spreadBps == 0 || p.spreadBps == BPS
    ensures Net(p, a, price) + Net(p, b, price) <= Net(p, a + b, price)
  {
    var x, y, z := Gross(a, price), Gross(b, price), Gross(a + b, price);
    assert (a + b) * price == a * price + b * price;
    FloorSum(a * price, b * price, SATS_PER_BTC);
    if p.spreadBps == BPS {
      FloorShift(0, x, BPS);
      FloorShift(0, y, BPS);
      FloorShift(0, z, BPS);
    }
  }

  /** One bitcoin and 9999 round up separately, and together they do not. */
  lemma SplittingPays(p: Policy)
    requires p.fixedFee == 0 && 0 < p.spreadBps < BPS
    ensures Net(p, SATS_PER_BTC, 1) + Net(p, 9_999 * SATS_PER_BTC, 1) > Net(p, SATS_PER_BTC + 9_999 * SATS_PER_BTC, 1)
  {
    var bps := p.spreadBps;
    assert Gross(SATS_PER_BTC, 1) == 1 && Gross(9_999 * SATS_PER_BTC, 1) == 9_999;
    assert Gross(SATS_PER_BTC + 9_999 * SATS_PER_BTC, 1) == BPS;
    FloorIs(bps, BPS, 0);
    FloorIs(9_999 * bps, BPS, bps - 1);
    FloorIs(BPS * bps, BPS, bps);
  }

  /** Splitting never pays exactly when there is a fixed fee of a unit, no spread, or nothing but spread. */
  lemma SplittingNeverPaysExactly(p: Policy)
    requires p.spreadBps <= BPS
    ensures NeverPaysToSplit(p) <==> p.fixedFee >= 1 || p.spreadBps == 0 || p.spreadBps == BPS
  {
    if p.fixedFee >= 1 || p.spreadBps == 0 || p.spreadBps == BPS {
      forall a: nat, b: nat, price: nat
        ensures Net(p, a, price) + Net(p, b, price) <= Net(p, a + b, price)
      {
        if p.fixedFee >= 1 {
          SplitGainsAtMostOne(p, a, b, price);
        } else {
          OneRoundingNeverPays(p, a, b, price);
        }
      }
    } else {
      SplittingPays(p);
    }
  }
}
