/** Arithmetic of float64 (binary64 of IEEE 754, round to nearest, ties to even), as far as whole
    numbers and their products with a fraction go.  A float64 between zero and one is a whole number
    of 2^-53 parts here; rounding to 53 significant bits does not depend on the exponent. */
module Floats {
  const TWO53: nat := 0x20_0000_0000_0000

  /** The distance of two neighbours among the numbers of 53 significant bits, at n. */
  function Unit(n: nat): (u: nat)
    ensures u >= 1
  {
    if n < TWO53 then 1 else 2 * Unit(n / 2)
  }

  /** Of q * u and (q + 1) * u the one nearer to q * u + r, of two the one with the even factor. */
  function Pick(q: nat, r: nat, u: nat): nat {
    if 2 * r < u || (2 * r == u && q % 2 == 0) then q * u else (q + 1) * u
  }

  /** The multiple of u nearest to n, of two the even one. */
  function Nearest(n: nat, u: nat): nat
    requires u >= 1
  {
    Pick(n / u, n % u, u)
  }

  function Round(n: nat): nat { Nearest(n, Unit(n)) }

  lemma {:induction false} UnitBounds(n: nat)
    ensures n < Unit(n) * TWO53
    ensures n >= TWO53 ==> Unit(n) * TWO53 <= 2 * n
  {
    if n >= TWO53 { UnitBounds(n / 2); }
  }

  lemma {:induction false} UnitSteps(m: nat, n: nat)
    requires m <= n
    ensures Unit(m) == Unit(n) || 2 * Unit(m) <= Unit(n)
  {
    if m >= TWO53 { UnitSteps(m / 2, n / 2); }
  }

  lemma {:induction false} NearestBounds(n: nat, u: nat)
    requires u >= 1
    ensures n / u * u <= Nearest(n, u) <= (n / u + 1) * u
    ensures 2 * Nearest(n, u) <= 2 * n + u && 2 * n <= 2 * Nearest(n, u) + u
  {
    assert n == n / u * u + n % u;
    assert (n / u + 1) * u == n / u * u + u;
  }

  lemma {:induction false} Times(a: int, b: int, u: nat)
    requires a <= b
    ensures a * u <= b * u
  {
  }

  /** A multiple of u below n stays below. */
  lemma {:induction false} NearestAbove(n: nat, u: nat, k: nat)
    requires u >= 1 && k * u <= n
    ensures k * u <= Nearest(n, u)
  {
    NearestBounds(n, u);
    if k > n / u {
      Times(n / u + 1, k, u);
      Split(n, u);
    }
    Times(k, n / u, u);
  }

  lemma {:induction false} Split(n: nat, u: nat)
    requires u >= 1
    ensures n == n / u * u + n % u && (n / u + 1) * u == n / u * u + u
  {
  }

  /** A multiple of u less than half of u away is the nearest. */
  lemma {:induction false} NearestHit(n: nat, u: nat, k: nat, v: nat)
    requires u >= 1 && v == k * u && 2 * v < 2 * n + u && 2 * n < 2 * v + u
    ensures Nearest(n, u) == v
  {
    Split(n, u);
    PickHit(n / u, n / u * u, n % u, u, k, v);
  }

  lemma {:induction false} PickHit(q: nat, w: nat, r: nat, u: nat, k: nat, v: nat)
    requires r < u && w == q * u && v == k * u && 2 * v < 2 * (w + r) + u && 2 * (w + r) < 2 * v + u
    ensures Pick(q, r, u) == v
  {
    CloseMultiple(q, w, r, u, k, v);
    OneStep(q, q + 1, u);
  }

  lemma {:induction false} CloseMultiple(q: nat, w: nat, r: nat, u: nat, k: nat, v: nat)
    requires r < u && w == q * u && v == k * u && 2 * v < 2 * (w + r) + u && 2 * (w + r) < 2 * v + u
    ensures (k == q && v == w && 2 * r < u) || (k == q + 1 && v == w + u && 2 * r > u)
  {
    OneStep(q, k, u);
    OneStep(k, q, u);
  }

  lemma {:induction false} OneStep(a: nat, b: nat, u: nat)
    ensures a < b ==> a * u + u <= b * u
    ensures a + 1 < b ==> a * u + 2 * u <= b * u
    ensures a + 1 == b ==> a * u + u == b * u
  {
    if a < b { Times(a + 1, b, u); assert (a + 1) * u == a * u + u; }
    if a + 1 < b { Times(a + 2, b, u); assert (a + 2) * u == a * u + 2 * u; }
  }

  /** No other multiple of u is nearer. */
  lemma {:induction false} NoneNearer(n: nat, u: nat, k: nat)
    requires u >= 1
    ensures var d: int := Nearest(n, u) - n; var e: int := k * u - n;
      (if d < 0 then -d else d) <= if e < 0 then -e else e
  {
    NearestBounds(n, u);
    if 2 * (k * u) < 2 * n + u && 2 * n < 2 * (k * u) + u { NearestHit(n, u, k, k * u); }
  }

  lemma {:induction false} QuotientMonotone(m: nat, n: nat, u: nat)
    requires m <= n && u >= 1
    ensures m / u <= n / u
  {
    assert (m / u - n / u) * u <= n % u < u;
    if m / u > n / u { Times(1, m / u - n / u, u); }
  }

  lemma {:induction false} NearestMonotone(m: nat, n: nat, u: nat)
    requires m <= n && u >= 1
    ensures Nearest(m, u) <= Nearest(n, u)
  {
    QuotientMonotone(m, n, u);
    if m / u < n / u {
      NearestBounds(m, u);
      NearestBounds(n, u);
      Times(m / u + 1, n / u, u);
    } else {
      Split(m, u);
      Split(n, u);
    }
  }

  /** Rounding keeps the order. */
  lemma {:induction false} RoundMonotone(m: nat, n: nat)
    requires m <= n
    ensures Round(m) <= Round(n)
  {
    UnitSteps(m, n);
    if Unit(m) == Unit(n) {
      NearestMonotone(m, n, Unit(m));
    } else {
      var u, v := Unit(m), Unit(n);
      assert n >= TWO53;
      UnitBounds(m);
      UnitBounds(n);
      Below(m, u);
      NearestAbove(n, v, TWO53 / 2);
    }
  }

  lemma {:induction false} Below(m: nat, u: nat)
    requires u >= 1 && m < TWO53 * u
    ensures Nearest(m, u) <= TWO53 * u
  {
    NearestBounds(m, u);
    assert m == m / u * u + m % u;
    if m / u >= TWO53 { Times(TWO53, m / u, u); }
    Times(m / u + 1, TWO53, u);
  }

  /** Whole numbers below 2^53 are exact, others off by at most one part in 2^53. */
  lemma {:induction false} RoundError(n: nat)
    ensures n < TWO53 ==> Round(n) == n
    ensures (TWO53 - 1) * n <= TWO53 * Round(n) <= (TWO53 + 1) * n
  {
    UnitBounds(n);
    NearestBounds(n, Unit(n));
  }

  function Pow2(k: nat): (r: nat)
    ensures r >= 1
  {
    if k == 0 then 1 else 2 * Pow2(k - 1)
  }

  lemma {:induction false} UnitAtMost(n: nat, k: nat)
    requires n < Pow2(k) * TWO53
    ensures Unit(n) <= Pow2(k)
  {
    if n >= TWO53 { UnitAtMost(n / 2, k - 1); }
  }

  lemma {:induction false} Pow2Sum(j: nat, k: nat)
    ensures Pow2(j + k) == Pow2(j) * Pow2(k)
  {
    if j > 0 { Pow2Sum(j - 1, k); }
  }

  lemma {:induction false} UnitIsPower(n: nat) returns (k: nat)
    ensures Unit(n) == Pow2(k)
  {
    if n < TWO53 { k := 0; } else { k := UnitIsPower(n / 2); k := k + 1; }
  }

  lemma {:induction false} Pow2Increases(j: nat, k: nat)
    requires j < k
    ensures Pow2(j) < Pow2(k)
  {
    if j < k - 1 { Pow2Increases(j, k - 1); }
  }

  lemma {:induction false} Pow2Of53()
    ensures Pow2(53) == TWO53
  {
    assert Pow2(8) == 256;
    Pow2Sum(8, 8);
    Pow2Sum(16, 16);
    Pow2Sum(16, 5);
    assert Pow2(5) == 32;
    Pow2Sum(32, 21);
  }

  /** Up to 2^105 the units divide 2^53. */
  lemma {:induction false} UnitDivides(n: nat) returns (c: nat)
    requires 2 * n < TWO53 * TWO53
    ensures c * Unit(n) == TWO53
  {
    var k := UnitIsPower(n);
    Pow2Of53();
    UnitBounds(n);
    if k > 53 { Pow2Increases(53, k); }
    Pow2Sum(53 - k, k);
    c := Pow2(53 - k);
  }
}
