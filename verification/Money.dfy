/** Money at the scale of the NUMERIC(30, 10) columns.

    Every amount counts units of 10^-10. The workflow adds exact decimals, so an
    amount is a `real`; a column holds a whole number of units, so it is an `int`.
    "At most ten fractional digits" is therefore `IsWhole`. */
module Money {
  /** NUMERIC(30, 10) keeps twenty integer digits: |value| < 10^30 units. */
  const LIMIT: int := 1_000_000_000_000_000_000_000_000_000_000

  /** Postgres rounds a stored NUMERIC half away from zero. */
  function Round(x: real): int {
    if x >= 0.0 then (x + 0.5).Floor else -((-x + 0.5).Floor)
  }

  predicate Fits(units: int) {
    -LIMIT < units < LIMIT
  }

  function TenTo(n: nat): nat {
    if n == 0 then 1 else 10 * TenTo(n - 1)
  }

  /** Thirty digits, of which ten are fractional. */
  lemma LimitDigits()
    ensures LIMIT == TenTo(20) * TenTo(10)
  {
    assert TenTo(5) == 100_000;
    assert TenTo(10) == 10_000_000_000;
    assert TenTo(15) == 1_000_000_000_000_000;
    assert TenTo(20) == 100_000_000_000_000_000_000;
  }

  predicate IsWhole(x: real) {
    x == x.Floor as real
  }

  function Total(xs: seq<real>): real {
    if xs == [] then 0.0 else Total(xs[..|xs| - 1]) + xs[|xs| - 1]
  }

  function RoundedTotal(xs: seq<real>): int {
    if xs == [] then 0 else RoundedTotal(xs[..|xs| - 1]) + Round(xs[|xs| - 1])
  }

  /** Rounding moves a non-negative amount by at most half a unit, and half goes up. */
  lemma RoundNear(x: real)
    requires x >= 0.0
    ensures Round(x) as real - 0.5 <= x < Round(x) as real + 0.5
    ensures Round(x) >= 0
  {
  }

  /** Rounding treats both signs alike. */
  lemma RoundOdd(x: real)
    ensures Round(-x) == -Round(x)
  {
  }

  lemma RoundPositive(x: real)
    requires Round(x) > 0
    ensures x > 0.0
  {
    if x <= 0.0 {
      RoundNear(-x);
    }
  }

  /** Rounding is the nearest unit, so the interval above determines it. */
  lemma RoundUnique(x: real, k: int)
    requires x >= 0.0
    requires k as real - 0.5 <= x < k as real + 0.5
    ensures Round(x) == k
  {
    RoundNear(x);
  }

  /** Adding to a total that is already on the grid rounds only the addend. */
  lemma RoundShift(t: int, x: real)
    requires t >= 0 && x >= 0.0
    ensures Round(t as real + x) == t + Round(x)
  {
    RoundNear(x);
    RoundUnique(t as real + x, t + Round(x));
  }

  lemma RoundWhole(x: real)
    requires IsWhole(x)
    ensures Round(x) as real == x
  {
    var k := x.Floor;
    if x >= 0.0 {
      RoundUnique(x, k);
    } else {
      assert -x == (-k) as real;
      RoundUnique(-x, -k);
    }
  }

  lemma RoundedTotalNonNegative(xs: seq<real>)
    requires forall i :: 0 <= i < |xs| ==> xs[i] >= 0.0
    ensures RoundedTotal(xs) >= 0 && Total(xs) >= 0.0
  {
    if xs != [] {
      RoundedTotalNonNegative(xs[..|xs| - 1]);
      RoundNear(xs[|xs| - 1]);
    }
  }

  /** n roundings move a sum by at most n half-units, and strictly less downwards. */
  lemma {:induction false} RoundingDrift(xs: seq<real>)
    requires forall i :: 0 <= i < |xs| ==> xs[i] >= 0.0
    ensures 2.0 * (RoundedTotal(xs) as real - Total(xs)) <= |xs| as real
    ensures xs != [] ==> 2.0 * (RoundedTotal(xs) as real - Total(xs)) > -(|xs| as real)
    ensures xs == [] ==> RoundedTotal(xs) as real == Total(xs)
  {
    if xs != [] {
      var init := xs[..|xs| - 1];
      RoundingDrift(init);
      RoundNear(xs[|xs| - 1]);
      assert |xs| as real == |init| as real + 1.0;
    }
  }

  /** Rounding once at the end differs from rounding each of n addends by at most
      floor(n / 2) units: the half-open rounding interval rules out (n + 1) / 2. */
  lemma RoundingBound(xs: seq<real>)
    requires forall i :: 0 <= i < |xs| ==> xs[i] >= 0.0
    ensures var d := Round(Total(xs)) - RoundedTotal(xs);
            -(|xs| / 2) <= d <= |xs| / 2
  {
    RoundedTotalNonNegative(xs);
    RoundingDrift(xs);
    RoundNear(Total(xs));
    var d := Round(Total(xs)) - RoundedTotal(xs);
    var n := |xs|;
    if xs != [] {
      assert 2.0 * (d as real) < n as real + 1.0;
      assert 2.0 * (d as real) > -(n as real) - 1.0;
      assert (2 * d) as real < (n + 1) as real && (2 * d) as real > (-n - 1) as real;
    } else {
      RoundUnique(0.0, 0);
    }
  }

  function Copies(n: nat, x: real): (xs: seq<real>)
    ensures |xs| == n && forall i :: 0 <= i < n ==> xs[i] == x
  {
    seq(n, _ => x)
  }

  lemma {:induction false} CopiesTotals(n: nat)
    ensures Total(Copies(n, 0.5)) == n as real / 2.0
    ensures RoundedTotal(Copies(n, 0.5)) == n
  {
    if n > 0 {
      CopiesTotals(n - 1);
      assert Copies(n, 0.5)[..n - 1] == Copies(n - 1, 0.5);
      RoundUnique(0.5, 1);
    }
  }

  /** The bound cannot be lowered for any n: n amounts of half a unit reach it. */
  lemma RoundingBoundIsTight(n: nat)
    ensures RoundedTotal(Copies(n, 0.5)) - Round(Total(Copies(n, 0.5))) == n / 2
  {
    CopiesTotals(n);
    var k := n - n / 2;
    assert k as real - 0.5 <= n as real / 2.0 < k as real + 0.5;
    RoundUnique(n as real / 2.0, k);
  }

  /** With whole amounts nothing is rounded at all. */
  lemma {:induction false} WholeTotals(xs: seq<real>)
    requires forall i :: 0 <= i < |xs| ==> IsWhole(xs[i])
    ensures RoundedTotal(xs) as real == Total(xs)
    ensures Round(Total(xs)) == RoundedTotal(xs)
  {
    if xs != [] {
      WholeTotals(xs[..|xs| - 1]);
      RoundWhole(xs[|xs| - 1]);
    }
    var k := RoundedTotal(xs);
    assert Total(xs).Floor == k;
    RoundWhole(Total(xs));
  }
}
