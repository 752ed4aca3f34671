/** The one-expression physical models shared, word for word, by both
    programs: growth rate, breakage rate, agglomeration kernel, daughter
    generation and the uniform initial size. */
module Kinetics {
  import opened Rng

  /** The constants a run is configured with (immutable during a run). */
  datatype Params = Params(
    D: real,                      // diffusion coefficient
    rho_c: real,                  // crystal density
    delta: real,                  // boundary-layer thickness
    c_star: real,                 // critical concentration
    breakageConstant: real,
    agglomerationConstant: real,
    timeStep: real,
    nucleationRate: real)
  {
    /** The divisions inside growthRate other than by the size are defined. */
    predicate Valid()
    {
      rho_c != 0.0 && delta != 0.0
    }
  }

  /** G(x, c) = (4 D / rho_c) (1/x - 1/(2 delta)) (c - c_star). */
  function GrowthRate(x: real, c: real, D: real, rho_c: real, delta: real, c_star: real): real
    requires x != 0.0 && rho_c != 0.0 && delta != 0.0
  {
    (4.0 * D / rho_c) * ((1.0 / x) - (1.0 / (2.0 * delta))) * (c - c_star)
  }

  /** The sign of the growth rate for physical parameters: it depends on
      both c - c_star and on whether the particle is smaller than 2 delta,
      so a supersaturated solution dissolves particles larger than 2 delta. */
  lemma GrowthRateSign(x: real, c: real, D: real, rho_c: real, delta: real, c_star: real)
    requires x > 0.0 && D > 0.0 && rho_c > 0.0 && delta > 0.0
    ensures GrowthRate(x, c, D, rho_c, delta, c_star) > 0.0 <==>
              (c > c_star && x < 2.0 * delta) || (c < c_star && x > 2.0 * delta)
    ensures GrowthRate(x, c, D, rho_c, delta, c_star) < 0.0 <==>
              (c > c_star && x > 2.0 * delta) || (c < c_star && x < 2.0 * delta)
    ensures GrowthRate(x, c, D, rho_c, delta, c_star) == 0.0 <==> c == c_star || x == 2.0 * delta
  {
    var a := 4.0 * D / rho_c;
    var b := (1.0 / x) - (1.0 / (2.0 * delta));
    var e := c - c_star;
    assert a > 0.0;
    assert b == (2.0 * delta - x) / (2.0 * delta * x);
    assert 2.0 * delta * x > 0.0;
    assert b > 0.0 <==> x < 2.0 * delta;
    assert b < 0.0 <==> x > 2.0 * delta;
    ProductSign(a * b, e);
    ProductSign(a, b);
  }

  /** The sign of a product of two reals. */
  lemma ProductSign(u: real, v: real)
    ensures u * v > 0.0 <==> (u > 0.0 && v > 0.0) || (u < 0.0 && v < 0.0)
    ensures u * v < 0.0 <==> (u > 0.0 && v < 0.0) || (u < 0.0 && v > 0.0)
    ensures u * v == 0.0 <==> u == 0.0 || v == 0.0
  {
  }

  /** Breakage rate per unit time, proportional to size. */
  function BreakageRate(x: real, k: real): real
  {
    k * x
  }

  /** breakageRate is linear in the size. */
  lemma BreakageRateLinear(x: real, y: real, s: real, k: real)
    ensures BreakageRate(x + y, k) == BreakageRate(x, k) + BreakageRate(y, k)
    ensures BreakageRate(s * x, k) == s * BreakageRate(x, k)
  {
  }

  /** The agglomeration kernel: the arithmetic mean of the two sizes, so it
      always lies between them. */
  function AgglomerationKernel(x1: real, x2: real): (r: real)
    ensures x1 <= x2 ==> x1 <= r <= x2
    ensures x2 <= x1 ==> x2 <= r <= x1
    ensures x1 > 0.0 && x2 > 0.0 ==> r > 0.0
  {
    (x1 + x2) / 2.0
  }

  /** The kernel does not depend on the order of the pair. */
  lemma KernelSymmetric(x1: real, x2: real)
    ensures AgglomerationKernel(x1, x2) == AgglomerationKernel(x2, x1)
  {
  }

  /** Equal binary split: exactly two equal daughters whose sizes add up to
      the parent's. */
  function GenerateDaughters(parentSize: real): (d: seq<real>)
    ensures |d| == 2 && d[0] == d[1] && d[0] + d[1] == parentSize
  {
    [parentSize / 2.0, parentSize / 2.0]
  }

  /** minSize + rand()/RAND_MAX * (maxSize - minSize): lies between the two
      bounds (in either order), reaching each bound on the extreme draws. */
  function SampleSize(minSize: real, maxSize: real, d: Draw): (s: real)
    ensures minSize <= maxSize ==> minSize <= s <= maxSize
    ensures maxSize <= minSize ==> maxSize <= s <= minSize
    ensures d == 0 ==> s == minSize
    ensures d == RAND_MAX ==> s == maxSize
  {
    var u := Unit(d);
    var w := maxSize - minSize;
    if w >= 0.0 then
      FractionOf(u, w);
      minSize + u * w
    else
      FractionOf(u, -w);
      minSize + u * w
  }

  /** A fraction in [0, 1] of a non-negative width lies within that width. */
  lemma FractionOf(u: real, w: real)
    requires 0.0 <= u <= 1.0 && w >= 0.0
    ensures 0.0 <= u * w <= w
    ensures u * -w == -(u * w)
  {
    ProductSign(u, w);
    ProductSign(1.0 - u, w);
    assert (1.0 - u) * w == w - u * w;
  }
}
