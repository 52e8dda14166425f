// Binary floating point as far as the rate limit needs it: the double nearest
// to a fraction, rounding a double to hundredths, and cutting it down to a
// whole number.  Values are fractions of naturals, so all of it is exact.
module Rounding {

  function Pow2(e: nat): (p: nat)
    ensures p >= 1
  {
    if e == 0 then 1 else 2 * Pow2(e - 1)
  }

  lemma {:induction false} Pow2Adds(a: nat, b: nat)
    ensures Pow2(a + b) == Pow2(a) * Pow2(b)
  {
    if a > 0 {
      Pow2Adds(a - 1, b);
      assert Pow2(a) == 2 * Pow2(a - 1) && Pow2(a + b) == 2 * Pow2(a - 1 + b);
      hide Pow2;
      Twice(Pow2(a - 1), Pow2(b));
    }
  }

  lemma Twice(p: nat, q: nat)
    ensures 2 * (p * q) == (2 * p) * q
  {
  }

  // The whole number nearest to n / d, the even one of two.
  function RoundDiv(n: nat, d: nat): nat
    requires d > 0
  {
    var q, r := n / d, n % d;
    if 2 * r < d || (2 * r == d && q % 2 == 0) then q else q + 1
  }

  lemma RoundDivIsNear(n: nat, d: nat)
    requires d > 0
    ensures 2 * (RoundDiv(n, d) * d - n) <= d && 2 * (n - RoundDiv(n, d) * d) <= d
  {
    var q, r := n / d, n % d;
    assert n == q * d + r;
    assert (q + 1) * d == q * d + d;
  }

  // A fraction in lowest places: with remainder r, a multiple k of d below n.
  lemma Quotient(n: nat, d: nat, k: nat, r: nat)
    requires d > 0 && n == k * d + r && r < d
    ensures n / d == k && n % d == r
  {
    var q := n / d;
    if q < k {
      assert (q + 1) * d <= k * d by { Multiply(q + 1, k, d); }
    } else if q > k {
      assert (k + 1) * d <= q * d by { Multiply(k + 1, q, d); }
    }
  }

  lemma Multiply(a: nat, b: nat, d: nat)
    requires a <= b
    ensures a * d <= b * d
  {
  }

  // ------------------------------------------------------------ doubles

  const Significant: nat := 0x10_0000_0000_0000

  // The scale at which n / d has 53 significant bits, for numbers not too large.
  function Exponent(n: nat, d: nat): (e: nat)
    requires n > 0 && d > 0
    ensures n * Pow2(e) >= d * Significant
    ensures e > 0 ==> n * Pow2(e) < 2 * d * Significant
    decreases d * Significant - n
  {
    if n >= d * Significant then 0
    else
      var e := Exponent(2 * n, d);
      ScaleTwice(n, e);
      1 + e
  }

  lemma ScaleTwice(n: nat, e: nat)
    ensures 2 * n * Pow2(e) == n * Pow2(e + 1)
  {
    var p := Pow2(e);
    assert Pow2(e + 1) == 2 * p;
    assert 2 * n * p == n * (2 * p);
  }

  lemma {:induction false} ExponentIs(n: nat, d: nat, e: nat)
    requires n > 0 && d > 0 && d * Significant <= n * Pow2(e) < 2 * d * Significant
    ensures Exponent(n, d) == e
    decreases e
  {
    if e > 0 {
      ScaleTwice(n, e - 1);
      if n >= d * Significant { NotYet(n, e - 1, d * Significant); }
      hide Pow2;
      ExponentIs(2 * n, d, e - 1);
    } else {
      assert Pow2(0) == 1;
    }
  }

  lemma NotYet(n: nat, e: nat, most: nat)
    requires 2 * n * Pow2(e) < 2 * most
    ensures n < most
  {
    hide Pow2;
    Multiply(1, Pow2(e), 2 * n);
  }

  // The same for large ones.
  function Excess(n: nat, d: nat): nat
    requires d > 0
    decreases n
  {
    if n < 2 * d * Significant then 0 else 1 + Excess(n / 2, d)
  }

  datatype Double = Double(num: nat, den: nat)

  // The double nearest to n / d.
  function Nearest(n: nat, d: nat): (x: Double)
    requires d > 0
    ensures x.den > 0
  {
    if n == 0 then Double(0, 1)
    else if n < 2 * d * Significant then
      var p := Pow2(Exponent(n, d));
      Double(RoundDiv(n * p, d), p)
    else
      var p := Pow2(Excess(n, d));
      Double(RoundDiv(n, d * p) * p, 1)
  }

  // How far the double is above the fraction, in units of 1 / (d * den).
  function Error(n: nat, d: nat): int
    requires d > 0
  {
    d * Nearest(n, d).num - n * Nearest(n, d).den
  }

  lemma ErrorAt(n: nat, d: nat, e: nat)
    requires n > 0 && d > 0 && d * Significant <= n * Pow2(e) < 2 * d * Significant
    ensures Error(n, d) == d * RoundDiv(n * Pow2(e), d) - n * Pow2(e)
  {
    ExponentIs(n, d, e);
    Multiply(1, Pow2(e), n);
    hide RoundDiv;
  }

  lemma ErrorIsSmall(n: nat, d: nat)
    requires 0 < n < 2 * d * Significant && d > 0
    ensures 2 * Error(n, d) <= d && -2 * Error(n, d) <= d
    ensures n * Nearest(n, d).den >= d * Significant
  {
    var p := Pow2(Exponent(n, d));
    RoundDivIsNear(n * p, d);
    var m := RoundDiv(n * p, d);
    assert d * m == m * d;
  }

  // round(x, 2), times a hundred.
  function ToHundredths(x: Double): nat
    requires x.den > 0
  {
    RoundDiv(100 * x.num, x.den)
  }

  // int(x).
  function Whole(x: Double): nat
    requires x.den > 0
  {
    x.num / x.den
  }

  // ------------------------------------------------------------ thousandths

  // Below this many thousandths the double is closer to the fraction than any
  // other thousandth is.
  const Exact: nat := 2 * Significant

  // Thousandths that lie halfway between two hundredths go up if the nearest
  // double lies above them, or on them with an odd number of hundredths below.
  predicate TieGoesUp(ms: nat) {
    Error(ms, 1000) > 0 || (Error(ms, 1000) == 0 && ms / 10 % 2 == 1)
  }

  lemma DenominatorIsLarge(ms: nat)
    requires 0 < ms < Exact
    ensures Nearest(ms, 1000).den > 500
  {
    var p := Nearest(ms, 1000).den;
    ErrorIsSmall(ms, 1000);
    if p <= 500 { Multiply(p, 500, ms); }
  }

  // What rounding to hundredths makes of a number of thousandths.
  lemma HundredthsOf(ms: nat)
    requires ms < Exact
    ensures var c, r := ms / 10, ms % 10;
            ToHundredths(Nearest(ms, 1000)) == if r < 5 || (r == 5 && !TieGoesUp(ms)) then c else c + 1
  {
    if ms > 0 {
      ErrorIsSmall(ms, 1000);
      DenominatorIsLarge(ms);
      var x := Nearest(ms, 1000);
      NearHundredth(ms, x.num, x.den);
    }
  }

  // The arithmetic of it: 100 * m / p is within 1/20 of ms / 10.
  lemma NearHundredth(ms: nat, m: nat, p: nat)
    requires p > 500 && -500 <= 1000 * m - ms * p <= 500
    ensures var c, r, err := ms / 10, ms % 10, 1000 * m - ms * p;
            RoundDiv(100 * m, p) == if r < 5 || (r == 5 && (err < 0 || (err == 0 && c % 2 == 0))) then c else c + 1
  {
    var c, r, err := ms / 10, ms % 10, 1000 * m - ms * p;
    assert ms == 10 * c + r;
    assert ms * p == 10 * (c * p) + r * p by { assert (10 * c + r) * p == 10 * (c * p) + r * p; }
    assert 1000 * m == 10 * (c * p) + r * p + err;
    var rest := 100 * m - c * p;
    assert 10 * rest == r * p + err;
    Residue(r, p, err, rest);
    if rest < 0 {
      assert c > 0;
      assert (c - 1) * p == c * p - p;
      Quotient(100 * m, p, c - 1, p + rest);
    } else {
      Quotient(100 * m, p, c, rest);
    }
  }

  // Where a rest of r / 10 and a bit lies, for each r.
  lemma Residue(r: nat, p: nat, err: int, rest: int)
    requires r < 10 && p > 500 && -500 <= err <= 500 && 10 * rest == r * p + err
    ensures 0 - p < 2 * rest && rest < p
    ensures r < 5 ==> 2 * rest < p
    ensures r > 5 ==> p < 2 * rest
    ensures r == 5 ==> (err < 0 <==> 2 * rest < p) && (err == 0 <==> 2 * rest == p)
  {
    match r
    case 0 => assert r * p == 0;
    case 1 => assert r * p == p;
    case 2 => assert r * p == 2 * p;
    case 3 => assert r * p == 3 * p;
    case 4 => assert r * p == 4 * p;
    case 5 => assert r * p == 5 * p;
    case 6 => assert r * p == 6 * p;
    case 7 => assert r * p == 7 * p;
    case 8 => assert r * p == 8 * p;
    case 9 => assert r * p == 9 * p;
  }

  // The double nearest to some hundredths is cut down to the whole number they
  // have.
  lemma WholeOfHundredths(c: nat)
    requires c < Exact / 10 + 1
    ensures Whole(Nearest(c, 100)) == c / 100
  {
    if c > 0 {
      ErrorIsSmall(c, 100);
      var x := Nearest(c, 100);
      if x.den <= 50 { Multiply(x.den, 50, c); }
      WholePart(c, x.num, x.den);
    }
  }

  lemma WholePart(c: nat, m: nat, p: nat)
    requires p > 50 && -50 <= 100 * m - c * p <= 50
    ensures m / p == c / 100
  {
    var q, t, err := c / 100, c % 100, 100 * m - c * p;
    assert c * p == 100 * (q * p) + t * p by { assert (100 * q + t) * p == 100 * (q * p) + t * p; }
    var rest := m - q * p;
    assert 100 * rest == t * p + err;
    if t == 0 {
      assert rest == 0;
    } else {
      Multiply(1, t, p);
      Multiply(t, 99, p);
      assert 0 < 100 * rest < 100 * p;
    }
    Quotient(m, p, q, rest);
  }
}
