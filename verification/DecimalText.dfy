/** Decimal strings and atomic integers: printing, parsing, and what a round trip gives back. */
module DecimalText {
  import opened Wrappers

  // ------------------------------------------------------------------- digits

  predicate IsDigit(c: char) { '0' <= c <= '9' }

  predicate AllDigits(s: string) { forall i :: 0 <= i < |s| ==> IsDigit(s[i]) }

  function DigitValue(c: char): nat
    requires IsDigit(c)
  {
    c as int - '0' as int
  }

  function DigitChar(n: nat): (c: char)
    requires n < 10
    ensures IsDigit(c) && DigitValue(c) == n
  {
    (n + '0' as int) as char
  }

  /** The number a digit string denotes; the empty string denotes 0, as `BigInt('')` does. */
  function Value(s: string): nat
    requires AllDigits(s)
  {
    if s == [] then 0 else 10 * Value(s[..|s| - 1]) + DigitValue(s[|s| - 1])
  }

  function Digits(n: nat): (s: string)
    ensures AllDigits(s) && s != []
  {
    if n < 10 then [DigitChar(n)] else Digits(n / 10) + [DigitChar(n % 10)]
  }

  function Pow10(d: nat): (p: nat)
    ensures p >= 1
  {
    if d == 0 then 1 else 10 * Pow10(d - 1)
  }

  function Zeros(n: nat): (s: string)
    ensures |s| == n && AllDigits(s) && forall i :: 0 <= i < n ==> s[i] == '0'
  {
    if n == 0 then "" else Zeros(n - 1) + "0"
  }

  function PadStart(s: string, d: nat): string { if |s| >= d then s else Zeros(d - |s|) + s }

  function PadEnd(s: string, d: nat): string { if |s| >= d then s else s + Zeros(d - |s|) }

  /** Removes the zeros at the end. */
  function StripZeros(s: string): (t: string)
    ensures t <= s && (t != [] ==> t[|t| - 1] != '0')
    ensures forall i :: |t| <= i < |s| ==> s[i] == '0'
  {
    if s != [] && s[|s| - 1] == '0' then StripZeros(s[..|s| - 1]) else s
  }

  // -------------------------------------------------------- values of strings

  lemma {:induction false} ValueAppend(a: string, b: string)
    requires AllDigits(a) && AllDigits(b)
    ensures AllDigits(a + b) && Value(a + b) == Value(a) * Pow10(|b|) + Value(b)
    decreases |b|
  {
    if b == [] {
      assert a + b == a;
    } else {
      var n := |b| - 1;
      ValueAppend(a, b[..n]);
      assert (a + b)[..|a + b| - 1] == a + b[..n];
      assert 10 * (Value(a) * Pow10(n)) == Value(a) * (10 * Pow10(n));
    }
  }

  lemma {:induction false} ValueZeros(n: nat)
    ensures Value(Zeros(n)) == 0
  {
    if n > 0 {
      ValueZeros(n - 1);
      assert Zeros(n)[..n - 1] == Zeros(n - 1);
    }
  }

  lemma {:induction false} ValueBound(s: string)
    requires AllDigits(s)
    ensures Value(s) < Pow10(|s|)
    decreases |s|
  {
    if s != [] { ValueBound(s[..|s| - 1]); }
  }

  lemma {:induction false} ValueDigits(n: nat)
    ensures Value(Digits(n)) == n
  {
    if n < 10 {
      assert Digits(n)[..0] == [];
      assert Value(Digits(n)[..0]) == 0;
    } else {
      ValueDigits(n / 10);
      assert Digits(n)[..|Digits(n)| - 1] == Digits(n / 10);
    }
  }

  /** Equally long digit strings with the same value are the same string. */
  lemma {:induction false} ValueIsInjective(a: string, b: string)
    requires AllDigits(a) && AllDigits(b) && |a| == |b| && Value(a) == Value(b)
    ensures a == b
    decreases |a|
  {
    if a != [] {
      var n := |a| - 1;
      ValueIsInjective(a[..n], b[..n]);
      assert a == a[..n] + [a[n]] && b == b[..n] + [b[n]];
    }
  }

  lemma {:induction false} DigitsFit(n: nat, d: nat)
    requires n < Pow10(d) && d > 0
    ensures |Digits(n)| <= d
  {
    if n >= 10 { DigitsFit(n / 10, d - 1); }
  }

  lemma PadStartValue(n: nat, d: nat)
    requires n < Pow10(d)
    ensures AllDigits(PadStart(Digits(n), d)) && Value(PadStart(Digits(n), d)) == n
    ensures |PadStart(Digits(n), d)| == if d == 0 then 1 else d
  {
    ValueDigits(n);
    if d > 0 { DigitsFit(n, d); }
    ValueZeros(if |Digits(n)| < d then d - |Digits(n)| else 0);
    if |Digits(n)| < d { ValueAppend(Zeros(d - |Digits(n)|), Digits(n)); }
  }

  lemma PadEndValue(s: string, d: nat)
    requires AllDigits(s) && |s| <= d
    ensures AllDigits(PadEnd(s, d)) && |PadEnd(s, d)| == d && Value(PadEnd(s, d)) == Value(s) * Pow10(d - |s|)
  {
    hide Value, Pow10, Zeros;
    ValueZeros(d - |s|);
    ValueAppend(s, Zeros(d - |s|));
    if |s| == d {
      PowZero();
      assert Zeros(0) == "";
    }
  }

  lemma PowZero()
    ensures Pow10(0) == 1
  {
  }

  /** Padding a stripped string back gives the original. */
  lemma StripThenPad(s: string)
    ensures PadEnd(StripZeros(s), |s|) == s
  {
  }

  lemma PadThenStrip(s: string, d: nat)
    requires |s| <= d && (s != [] ==> s[|s| - 1] != '0')
    ensures StripZeros(PadEnd(s, d)) == s
  {
    var p := PadEnd(s, d);
    var t := StripZeros(p);
    assert forall i :: |s| <= i < |p| ==> p[i] == '0';
    assert s != [] ==> p[|s| - 1] == s[|s| - 1];
    assert t != [] ==> t[|t| - 1] == p[|t| - 1];
    assert |t| == |s|;
    assert p[..|s|] == s;
  }

  // ------------------------------------------------------------------- split

  function Before(s: string, c: char): (t: string)
    ensures t <= s && c !in t
  {
    if s == [] || s[0] == c then [] else [s[0]] + Before(s[1..], c)
  }

  /** What follows the first dot up to the second one, as destructuring the split takes it. */
  function FractionPart(s: string): string {
    var w := Before(s, '.');
    if |w| == |s| then "" else Before(s[|w| + 1..], '.')
  }

  lemma {:induction false} BeforeAppend(w: string, c: char, rest: string)
    requires c !in w && (rest == [] || rest[0] == c)
    ensures Before(w + rest, c) == w
    decreases |w|
  {
    if w != [] {
      assert (w + rest)[1..] == w[1..] + rest;
      assert w[0] != c;
      BeforeAppend(w[1..], c, rest);
    } else {
      assert w + rest == rest;
    }
  }

  lemma SplitDecimal(w: string, f: string)
    requires AllDigits(w) && AllDigits(f)
    ensures Before(w + "." + f, '.') == w && FractionPart(w + "." + f) == f
    ensures Before(w, '.') == w && FractionPart(w) == ""
  {
    assert w + "." + f == w + ("." + f);
    BeforeAppend(w, '.', "." + f);
    assert (w + "." + f)[|w| + 1..] == f;
    BeforeAppend(f, '.', []);
    assert f + [] == f;
    BeforeAppend(w, '.', []);
    assert w + [] == w;
  }

  // ------------------------------------------------------ atomicToDecimal etc.

  function Quotient(a: nat, p: nat): nat
    requires p > 0
  {
    a / p
  }

  function Remainder(a: nat, p: nat): (r: nat)
    requires p > 0
    ensures r < p && a == Quotient(a, p) * p + r
  {
    a % p
  }

  function Compose(whole: nat, p: nat, frac: nat): nat { whole * p + frac }

  function AtomicToDecimal(a: nat, d: nat): string {
    var whole, frac := Quotient(a, Pow10(d)), Remainder(a, Pow10(d));
    var text := StripZeros(PadStart(Digits(frac), d));
    if |text| > 0 then Digits(whole) + "." + text else Digits(whole)
  }

  /** None when `BigInt` rejects a part. */
  function DecimalToAtomic(text: string, d: nat): Option<string> {
    var whole, frac := Before(text, '.'), FractionPart(text);
    var padded := PadEnd(frac, d)[..d];
    if AllDigits(whole) && AllDigits(padded) then Some(Digits(Compose(Value(whole), Pow10(d), Value(padded)))) else None
  }

  /** A text is an amount exactly if its whole part and the first `d` digits of its fraction hold nothing but digits. */
  lemma AmountsExactly(text: string, d: nat)
    ensures DecimalToAtomic(text, d).Some? <==>
      && (forall i :: 0 <= i < |Before(text, '.')| ==> '0' <= text[i] <= '9')
      && (forall i :: 0 <= i < |FractionPart(text)| && i < d ==> '0' <= FractionPart(text)[i] <= '9')
  {
    var f := FractionPart(text);
    var padded := PadEnd(f, d)[..d];
    assert forall i :: 0 <= i < d ==> padded[i] == if i < |f| then f[i] else '0';
    hide Value, Digits, Pow10, FractionPart, PadEnd;
  }

  /** For a text in digits, the parsed amount is the whole part shifted plus the first d fraction digits. */
  lemma ParsedAmount(w: string, f: string, d: nat)
    requires AllDigits(w) && AllDigits(f)
    ensures DecimalToAtomic(w + "." + f, d) == Some(Digits(Compose(Value(w), Pow10(d), Value(PadEnd(f, d)[..d]))))
  {
    hide Value, Digits, Before, Pow10;
    SplitDecimal(w, f);
  }

  lemma NoFraction(d: nat)
    ensures AllDigits(PadEnd("", d)[..d]) && Value(PadEnd("", d)[..d]) == 0
  {
    PadEndValue("", d);
    assert Value("") == 0;
    hide Value, Pow10;
    assert PadEnd("", d)[..d] == PadEnd("", d);
  }

  lemma ParsedWhole(w: string, d: nat)
    requires AllDigits(w)
    ensures DecimalToAtomic(w, d) == Some(Digits(Compose(Value(w), Pow10(d), 0)))
  {
    hide Digits, Before, Pow10, Value, PadEnd, Compose;
    SplitDecimal(w, "");
    NoFraction(d);
  }

  /** What is printed of a fraction `r`, and what is read back from it. */
  predicate FractionSurvives(r: nat, d: nat) {
    var p := PadStart(Digits(r), d); var t := StripZeros(p);
    AllDigits(p) && AllDigits(t) && |t| <= d && Value(PadEnd(t, d)[..d]) == r
  }

  /** Without fraction digits the padded remainder is a lone zero, which is stripped. */
  lemma NoFractionSurvives(d: nat)
    requires d == 0
    ensures FractionSurvives(0, d)
  {
    assert Digits(0) == "0" && PadStart("0", d) == "0";
    assert StripZeros("0") == StripZeros("") == "";
    NoFraction(d);
  }

  lemma SomeFractionSurvives(r: nat, d: nat)
    requires d > 0 && r < Pow10(d)
    ensures FractionSurvives(r, d)
  {
    hide Digits, Value, Pow10, PadStart, PadEnd, StripZeros;
    PadStartValue(r, d);
    var p := PadStart(Digits(r), d);
    StripThenPad(p);
    assert PadEnd(StripZeros(p), d)[..d] == p;
  }

  lemma FractionText(a: nat, d: nat)
    ensures FractionSurvives(Remainder(a, Pow10(d)), d)
  {
    hide FractionSurvives, Pow10;
    if d == 0 {
      NoPower(d);
      NoFractionSurvives(d);
    } else {
      SomeFractionSurvives(Remainder(a, Pow10(d)), d);
    }
  }

  lemma NoPower(d: nat)
    requires d == 0
    ensures Pow10(d) == 1
  {
  }

  lemma ComposeBack(a: nat, p: nat)
    requires p > 0
    ensures Compose(Quotient(a, p), p, Remainder(a, p)) == a
  {
  }

  /** Printing an amount and reading it back gives the amount, although trailing zeros are stripped. */
  lemma RoundTrip(a: nat, d: nat)
    ensures DecimalToAtomic(AtomicToDecimal(a, d), d) == Some(Digits(a))
  {
    hide Digits, Value, Pow10, StripZeros, DecimalToAtomic, Quotient, PadStart, PadEnd, Compose;
    var whole, r := Quotient(a, Pow10(d)), Remainder(a, Pow10(d));
    var t := StripZeros(PadStart(Digits(r), d));
    FractionText(a, d);
    ValueDigits(whole);
    ComposeBack(a, Pow10(d));
    if |t| > 0 {
      ParsedAmount(Digits(whole), t, d);
    } else {
      ParsedWhole(Digits(whole), d);
      NoFraction(d);
    }
  }

  /** No superfluous zero on either side, no dot without a fraction, at most d fraction digits. */
  predicate Canonical(w: string, f: string, d: nat) {
    && AllDigits(w) && w != [] && (|w| > 1 ==> w[0] != '0')
    && AllDigits(f) && |f| <= d && (f != [] ==> f[|f| - 1] != '0')
  }

  function Joined(w: string, f: string): string { if f == [] then w else w + "." + f }

  lemma {:induction false} DigitsHaveNoLeadingZero(n: nat)
    ensures |Digits(n)| > 1 ==> Digits(n)[0] != '0'
    ensures n > 0 ==> Digits(n)[0] != '0'
  {
    if n >= 10 { DigitsHaveNoLeadingZero(n / 10); }
  }

  /** Every printed amount is canonical. */
  lemma OutputIsCanonical(a: nat, d: nat)
    ensures exists w, f :: Canonical(w, f, d) && AtomicToDecimal(a, d) == Joined(w, f)
  {
    var w := Digits(Quotient(a, Pow10(d)));
    var f := StripZeros(PadStart(Digits(Remainder(a, Pow10(d))), d));
    FractionText(a, d);
    DigitsHaveNoLeadingZero(Quotient(a, Pow10(d)));
    assert Canonical(w, f, d) && AtomicToDecimal(a, d) == Joined(w, f);
  }

  lemma {:induction false} CanonicalDigits(w: string)
    requires AllDigits(w) && w != [] && (|w| > 1 ==> w[0] != '0')
    ensures Digits(Value(w)) == w
    decreases |w|
  {
    var n := |w| - 1;
    if n == 0 {
      assert w[..0] == [] && Value(w[..0]) == 0;
    } else {
      CanonicalDigits(w[..n]);
      LeadingDigitCounts(w[..n]);
      assert w == w[..n] + [w[n]];
    }
  }

  lemma {:induction false} LeadingDigitCounts(w: string)
    requires AllDigits(w) && w != [] && w[0] != '0'
    ensures Value(w) > 0
    decreases |w|
  {
    if |w| > 1 { LeadingDigitCounts(w[..|w| - 1]); }
  }

  /** And reading a canonical text and printing it gives the text: the two conversions are inverse. */
  lemma CanonicalRoundTrip(w: string, f: string, d: nat)
    requires Canonical(w, f, d)
    ensures AtomicToDecimal(Compose(Value(w), Pow10(d), Value(PadEnd(f, d))), d) == Joined(w, f)
  {
    hide Digits, Value, Pow10, StripZeros;
    var p := PadEnd(f, d);
    PadEndValue(f, d);
    ValueBound(p);
    DivMod(Value(w), Value(p), Pow10(d));
    CanonicalDigits(w);
    CanonicalFraction(f, d);
  }

  lemma CanonicalFraction(f: string, d: nat)
    requires AllDigits(f) && |f| <= d && (f != [] ==> f[|f| - 1] != '0')
    ensures AllDigits(PadEnd(f, d)) && StripZeros(PadStart(Digits(Value(PadEnd(f, d))), d)) == f
  {
    var p := PadEnd(f, d);
    PadEndValue(f, d);
    ValueBound(p);
    PadThenStrip(f, d);
    if d > 0 {
      PadStartValue(Value(p), d);
      ValueIsInjective(PadStart(Digits(Value(p)), d), p);
    } else {
      assert Value(p) == 0 && PadStart(Digits(0), 0) == "0";
      assert "0"[..0] == "";
      assert StripZeros("0") == StripZeros("");
    }
  }

  lemma AtLeastOnce(n: int, p: nat)
    requires n >= 1
    ensures n * p >= p
  {
    assert n * p == p + (n - 1) * p;
  }

  /** Quotient and remainder are unique. */
  lemma DivModUnique(a: int, v: int, q: int, r: int, p: nat)
    requires 0 <= v < p && 0 <= r < p && a * p + v == q * p + r
    ensures a == q && v == r
  {
    assert (a - q) * p == r - v;
    if a > q { AtLeastOnce(a - q, p); }
    if a < q {
      assert (q - a) * p == v - r;
      AtLeastOnce(q - a, p);
    }
  }

  lemma DivMod(a: nat, v: nat, p: nat)
    requires v < p
    ensures Quotient(Compose(a, p, v), p) == a && Remainder(Compose(a, p, v), p) == v
  {
    var x := Compose(a, p, v);
    DivModUnique(a, v, Quotient(x, p), Remainder(x, p), p);
  }

  lemma {:induction false} Pow10Add(a: nat, b: nat)
    ensures Pow10(a + b) == Pow10(a) * Pow10(b)
  {
    if a > 0 { Pow10Add(a - 1, b); }
  }

  /** Fraction digits beyond d are cut off downward: the amount is the floor of what the text denotes. */
  lemma TruncatesDownward(w: string, f: string, d: nat)
    requires AllDigits(w) && AllDigits(f) && |f| >= d
    ensures var amount := Compose(Value(w), Pow10(d), Value(f[..d])); var shift := Pow10(|f| - d);
      && DecimalToAtomic(w + "." + f, d) == Some(Digits(amount))
      && amount * shift <= Compose(Value(w), Pow10(|f|), Value(f)) < (amount + 1) * shift
  {
    hide Digits, Value, Pow10, DecimalToAtomic;
    var shift := Pow10(|f| - d);
    assert PadEnd(f, d)[..d] == f[..d];
    ParsedAmount(w, f, d);
    assert f == f[..d] + f[d..];
    ValueAppend(f[..d], f[d..]);
    ValueBound(f[d..]);
    Pow10Add(d, |f| - d);
    Regroup(Value(w), Pow10(d), Value(f[..d]), shift);
  }

  lemma Regroup(x: nat, p: nat, v: nat, shift: nat)
    ensures (x * p + v) * shift == x * (p * shift) + v * shift
    ensures (x * p + v + 1) * shift == (x * p + v) * shift + shift
  {
  }

  // --------------------------------------------------------------- price feeds

  /** The white space and line terminators that `trim` removes. */
  predicate IsSpace(c: char) {
    var code := c as int;
    || 9 <= code <= 13
    || code == 32
    || code == 0xA0
    || code == 0x1680
    || 0x2000 <= code <= 0x200A
    || code == 0x2028
    || code == 0x2029
    || code == 0x202F
    || code == 0x205F
    || code == 0x3000
    || code == 0xFEFF
  }

  function TrimStart(s: string): string { if s != [] && IsSpace(s[0]) then TrimStart(s[1..]) else s }

  function TrimEnd(s: string): string { if s != [] && IsSpace(s[|s| - 1]) then TrimEnd(s[..|s| - 1]) else s }

  /** Digits, then optionally a dot and more digits. */
  predicate PriceFormat(s: string) {
    var w := Before(s, '.');
    w != [] && AllDigits(w) && (|w| < |s| ==> |w| + 1 < |s| && AllDigits(s[|w| + 1..]))
  }

  function ParseMicroUsd(text: string): Option<nat> {
    var s := TrimEnd(TrimStart(text));
    if !PriceFormat(s) then None
    else Some(Compose(Value(Before(s, '.')), 1_000_000, Value(PaddedFraction(s))))
  }

  /** The fraction followed by six zeros, cut to six digits. */
  function PaddedFraction(s: string): (p: string)
    requires PriceFormat(s)
    ensures AllDigits(p) && |p| == 6
  {
    FractionIsDigits(s);
    (FractionPart(s) + "000000")[..6]
  }

  lemma FractionIsDigits(s: string)
    requires PriceFormat(s)
    ensures AllDigits(FractionPart(s))
    ensures s == Before(s, '.') || s == Before(s, '.') + "." + FractionPart(s)
  {
    hide Before;
    var w := Before(s, '.');
    if |w| < |s| {
      var rest := s[|w| + 1..];
      BeforeAppend(rest, '.', []);
      assert rest + [] == rest;
      DotFollows(s, '.');
      assert s == w + "." + rest;
    }
  }

  lemma {:induction false} DotFollows(s: string, c: char)
    ensures |Before(s, c)| < |s| ==> s[|Before(s, c)|] == c
    decreases |s|
  {
    if s != [] && s[0] != c { DotFollows(s[1..], c); }
  }

  lemma SixPlaces()
    ensures Pow10(6) == 1_000_000
  {
    assert Pow10(3) == 1000;
  }

  /** The two padding styles agree. */
  lemma SixDigits(f: string)
    ensures (f + "000000")[..6] == PadEnd(f, 6)[..6]
  {
  }

  lemma TrimLeavesDigits(s: string)
    requires s != [] && !IsSpace(s[0]) && !IsSpace(s[|s| - 1])
    ensures TrimEnd(TrimStart(s)) == s
  {
  }

  /** On well-formed prices the feed parser and the amount parser read the same number. */
  lemma ParsersAgree(text: string)
    ensures var s := TrimEnd(TrimStart(text));
      && (ParseMicroUsd(text).Some? <==> PriceFormat(s))
      && (PriceFormat(s) ==> DecimalToAtomic(s, 6) == Some(Digits(ParseMicroUsd(text).value)))
  {
    hide Digits, Value, Pow10, Before, TrimStart, TrimEnd;
    var s := TrimEnd(TrimStart(text));
    if PriceFormat(s) {
      FractionIsDigits(s);
      SixDigits(FractionPart(s));
      SixPlaces();
    }
  }

  /** The format in full: digits, and if there is a dot, digits after it. */
  predicate Spells(s: string, w: string, f: string) {
    w != [] && AllDigits(w) && AllDigits(f) && ((f == [] && s == w) || (f != [] && s == w + "." + f))
  }

  /** A text is a price exactly if it spells a whole part and an optional, non-empty fraction. */
  lemma PriceFormatExactly(s: string)
    ensures PriceFormat(s) <==> exists w, f :: Spells(s, w, f)
  {
    if PriceFormat(s) {
      var w := Before(s, '.');
      FractionIsDigits(s);
      if |w| == |s| {
        assert Spells(s, w, "");
      } else {
        var f := s[|w| + 1..];
        DotFollows(s, '.');
        assert s == w + "." + f;
        assert Spells(s, w, f);
      }
    }
    forall w, f | Spells(s, w, f)
      ensures PriceFormat(s)
    {
      SplitDecimal(w, f);
      if f != [] { assert s[|w| + 1..] == f; }
    }
  }

  predicate AllSpace(s: string) { forall i :: 0 <= i < |s| ==> IsSpace(s[i]) }

  lemma {:induction false} TrimStartDrops(left: string, s: string)
    requires AllSpace(left)
    ensures TrimStart(left + s) == TrimStart(s)
    decreases |left|
  {
    if left != [] {
      assert (left + s)[1..] == left[1..] + s;
      TrimStartDrops(left[1..], s);
    } else {
      assert left + s == s;
    }
  }

  lemma {:induction false} TrimEndDrops(s: string, right: string)
    requires AllSpace(right)
    ensures TrimEnd(s + right) == TrimEnd(s)
    decreases |right|
  {
    if right != [] {
      var n := |right| - 1;
      assert (s + right)[..|s| + n] == s + right[..n];
      TrimEndDrops(s, right[..n]);
    } else {
      assert s + right == s;
    }
  }

  /** White space around a price changes nothing; a price itself holds none. */
  lemma SpaceIsIgnored(left: string, s: string, right: string)
    requires AllSpace(left) && AllSpace(right) && PriceFormat(s)
    ensures ParseMicroUsd(left + s + right) == ParseMicroUsd(s)
         == Some(Compose(Value(Before(s, '.')), 1_000_000, Value(PaddedFraction(s))))
  {
    FractionIsDigits(s);
    hide Value, Before, PaddedFraction, Compose;
    assert IsDigit(s[0]) && IsDigit(s[|s| - 1]);
    assert left + s + right == left + (s + right);
    TrimStartDrops(left, s + right);
    assert TrimStart(s + right) == s + right;
    TrimEndDrops(s, right);
    TrimLeavesDigits(s);
  }

  /** A scaled rate as a quote prints it: integer part, dot, six fraction digits. */
  function PrintRate(scaled: nat): string {
    Digits(scaled / 1_000_000) + "." + PadStart(Digits(scaled % 1_000_000), 6)
  }

  /** Parsing a printed rate gives back the scaled rate. */
  lemma RateRoundTrip(scaled: nat)
    ensures ParseMicroUsd(PrintRate(scaled)) == Some(scaled)
  {
    SixPlaces();
    hide Digits, Value, Pow10, Before, PadStart, TrimStart, TrimEnd;
    var w, f := Digits(scaled / 1_000_000), PadStart(Digits(scaled % 1_000_000), 6);
    PadStartValue(scaled % 1_000_000, 6);
    ValueDigits(scaled / 1_000_000);
    SplitDecimal(w, f);
    var s := PrintRate(scaled);
    assert s[0] == w[0] && s[|s| - 1] == f[|f| - 1];
    TrimLeavesDigits(s);
    assert s[|w| + 1..] == f;
    assert (f + "000000")[..6] == f;
  }
}
