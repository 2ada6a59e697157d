/**
  Fixed-point decimal arithmetic as the gateway uses it: amounts are
  arbitrary-precision decimals (PreciseNumber), and the satoshi-to-bitcoin
  conversion is bcmath's `bcdiv(x, '100000000', 8)`, a division truncated
  toward zero at eight decimal places.
 */
module Decimal {
  import opened Text

  /** The decimal number `mantissa * 10^-scale`. */
  datatype Dec = Dec(mantissa: int, scale: nat)

  function Pow10(n: nat): (r: nat)
    ensures r >= 1
  {
    if n == 0 then 1 else 10 * Pow10(n - 1)
  }

  function Abs(x: int): nat {
    if x < 0 then -x else x
  }

  /** `a` and `b` denote the same number, whatever their scales. */
  predicate SameValue(a: Dec, b: Dec) {
    a.mantissa * Pow10(b.scale) == b.mantissa * Pow10(a.scale)
  }

  /** The number `a` is strictly greater than the number `b`. */
  predicate Greater(a: Dec, b: Dec) {
    a.mantissa * Pow10(b.scale) > b.mantissa * Pow10(a.scale)
  }

  /** A decimal whose value is a whole number. */
  predicate Integral(x: Dec) {
    x.mantissa % Pow10(x.scale) == 0
  }

  lemma MulMono(x: nat, y: nat, b: nat)
    requires x <= y
    ensures x * b <= y * b
  {
    assert y * b == x * b + (y - x) * b;
  }

  lemma AbsMul(a: int, b: nat)
    ensures Abs(a * b) == Abs(a) * b
  {
    if a < 0 {
      assert a * b == -((-a) * b);
    }
  }

  /** Euclidean division by a positive number is the unique quotient in range. */
  lemma DivUnique(a: nat, b: nat, q: nat)
    requires b > 0
    requires q * b <= a < (q + 1) * b
    ensures a / b == q
  {
    var d := a / b;
    assert a == d * b + a % b;
    if d < q {
      MulMono(d + 1, q, b);
    } else if d > q {
      MulMono(q + 1, d, b);
    }
  }

  /** Euclidean division of a natural number by a positive one, as bounds. */
  lemma DivBounds(n: nat, b: int)
    requires b > 0
    ensures n / b >= 0
    ensures (n / b) * b <= n < (n / b + 1) * b
    ensures n == 0 ==> n / b == 0
  {
    var d := n / b;
    assert n == d * b + n % b;
    assert (d + 1) * b == d * b + b;
  }

  lemma MulStrict(x: nat, y: nat, k: nat)
    requires x < y && k > 0
    ensures x * k < y * k
  {
    MulMono(x + 1, y, k);
    assert (x + 1) * k == x * k + k;
  }

  lemma MulAssoc(x: int, y: int, z: int)
    ensures x * (y * z) == (x * y) * z
  {
  }

  lemma SignMul(a: int, k: nat)
    requires k > 0
    ensures a * k > 0 <==> a > 0
  {
    if a > 0 {
      MulStrict(0, a, k);
    } else {
      MulMono(0, -a, k);
      assert a * k == -((-a) * k);
    }
  }

  /** Division truncated toward zero, as bcmath divides (and unlike Dafny's
      Euclidean `/` on negative operands). */
  function TruncDiv(a: int, b: int): (q: int)
    requires b > 0
    ensures Abs(q) * b <= Abs(a) < (Abs(q) + 1) * b
    ensures q == 0 || (q > 0 <==> a > 0)
  {
    DivBounds(Abs(a), b);
    if a >= 0 then Abs(a) / b else -(Abs(a) / b)
  }

  /** The bounds of TruncDiv's contract pin the quotient down. */
  lemma TruncDivUnique(a: int, b: int, q: int)
    requires b > 0
    requires Abs(q) * b <= Abs(a) < (Abs(q) + 1) * b
    requires q == 0 || (q > 0 <==> a > 0)
    ensures TruncDiv(a, b) == q
  {
    DivUnique(Abs(a), b, Abs(q));
  }

  /** Scaling dividend and divisor by the same factor keeps the quotient. */
  lemma TruncDivCancel(a: int, b: int, k: int)
    requires b > 0 && k > 0
    ensures TruncDiv(a * k, b * k) == TruncDiv(a, b)
  {
    var q := TruncDiv(a, b);
    var n := Abs(q);
    AbsMul(a, k);
    MulMono(n * b, Abs(a), k);
    MulStrict(Abs(a), (n + 1) * b, k);
    MulAssoc(n, b, k);
    MulAssoc(n + 1, b, k);
    SignMul(a, k);
    TruncDivUnique(a * k, b * k, q);
  }

  /** `bcdiv(x, divisor, scale)`: x / divisor truncated toward zero to `scale`
      decimal places. */
  function BcDiv(x: Dec, divisor: int, scale: nat): (r: Dec)
    requires divisor > 0
    ensures r.scale == scale
    ensures Abs(r.mantissa) * (divisor * Pow10(x.scale)) <= Abs(x.mantissa) * Pow10(scale)
    ensures Abs(x.mantissa) * Pow10(scale) < (Abs(r.mantissa) + 1) * (divisor * Pow10(x.scale))
    ensures r.mantissa == 0 || (r.mantissa > 0 <==> x.mantissa > 0)
  {
    AbsMul(x.mantissa, Pow10(scale));
    Dec(TruncDiv(x.mantissa * Pow10(scale), divisor * Pow10(x.scale)), scale)
  }

  const SatsPerBtc: int := 100000000
  const BtcScale: nat := 8

  /** The sats-mode conversion `bcdiv(amount, '100000000', 8)`. */
  function SatToBtc(sats: Dec): Dec {
    BcDiv(sats, SatsPerBtc, BtcScale)
  }

  /** The bitcoin amount in units of 10^-8 is the satoshi amount truncated
      toward zero to a whole number: only fractions of a satoshi are lost. */
  lemma SatToBtcTruncatesSatoshis(sats: Dec)
    ensures SatToBtc(sats).scale == 8
    ensures SatToBtc(sats).mantissa == TruncDiv(sats.mantissa, Pow10(sats.scale))
  {
    assert Pow10(8) == SatsPerBtc;
    assert SatsPerBtc * Pow10(sats.scale) == Pow10(sats.scale) * SatsPerBtc;
    TruncDivCancel(sats.mantissa, Pow10(sats.scale), SatsPerBtc);
  }

  lemma ModOfMultiple(q: int, p: int)
    requires p > 0
    ensures (q * p) % p == 0
  {
    var d := (q * p) / p;
    var r := (q * p) % p;
    assert q * p == d * p + r;
    assert r == (q - d) * p;
    if q - d >= 1 {
      MulMono(1, q - d, p);
    } else if q - d <= -1 {
      MulMono(1, d - q, p);
    }
  }

  lemma TruncDivExact(m: int, p: int)
    requires p > 0
    requires m % p == 0
    ensures TruncDiv(m, p) * p == m
  {
    var k := m / p;
    assert m == k * p;
    AbsMul(k, p);
    TruncDivUnique(m, p, k);
  }

  lemma MulCancel(a: int, b: int, k: int)
    requires k > 0
    ensures a * k == b * k <==> a == b
  {
    if a != b {
      assert a * k - b * k == (a - b) * k;
      if a > b {
        MulMono(1, a - b, k);
      } else {
        MulMono(1, b - a, k);
      }
    }
  }

  /** Multiplying bitcoin by 10^8 gives satoshis; exact, no rounding. */
  function BtcToSat(btc: Dec): Dec {
    Dec(btc.mantissa * SatsPerBtc, btc.scale)
  }

  lemma RoundTripDigits(m: int, p: int)
    requires p > 0
    ensures m % p == 0 <==> (TruncDiv(m, p) * SatsPerBtc) * p == m * Pow10(8)
  {
    var q := TruncDiv(m, p);
    assert Pow10(8) == SatsPerBtc;
    assert (q * SatsPerBtc) * p == (q * p) * SatsPerBtc;
    MulCancel(q * p, m, SatsPerBtc);
    if m % p == 0 {
      TruncDivExact(m, p);
    }
    if q * p == m {
      ModOfMultiple(q, p);
    }
  }

  /** The conversion is lossless exactly when the satoshi amount is whole:
      converting the bitcoin amount back gives the same number of satoshis. */
  lemma SatToBtcExactIff(sats: Dec)
    ensures Integral(sats) <==> SameValue(BtcToSat(SatToBtc(sats)), sats)
  {
    SatToBtcTruncatesSatoshis(sats);
    RoundTripDigits(sats.mantissa, Pow10(sats.scale));
  }

  /** A whole number of satoshis converts to the same digits at scale 8. */
  lemma WholeSatoshisConvertLosslessly(n: int)
    ensures SatToBtc(Dec(n, 0)) == Dec(n, 8)
  {
    SatToBtcTruncatesSatoshis(Dec(n, 0));
    TruncDivUnique(n, 1, n);
  }

  /** The sats-mode switch used before talking to the payment server: currency
      `SAT` becomes `BTC` with the amount converted, anything else passes. */
  function ToServerMoney(amount: Dec, currency: Option<string>): (r: (Dec, Option<string>))
    ensures currency == Some("SAT") ==> r.1 == Some("BTC") && r.0.scale == 8
    ensures currency == Some("SAT") ==> r.0.mantissa == TruncDiv(amount.mantissa, Pow10(amount.scale))
    ensures currency != Some("SAT") ==> r == (amount, currency)
  {
    SatToBtcTruncatesSatoshis(amount);
    if currency == Some("SAT") then (SatToBtc(amount), Some("BTC")) else (amount, currency)
  }
}
