/** `currentflow/patterns/estimate.py`: the Wilson interval and the decay flag of a base rate.
    The square root is a parameter, known by what makes it one. */
module Estimate {
  import opened Models
  import opened Sequences
  import opened Scan
  import opened Outcome
  import opened Accrual

  datatype Interval = Interval(low: real, high: real)

  function Radicand(hits: int, n: int, z: real): real
    requires n > 0
  {
    RadicandOf(hits as real / n as real, n as real, z)
  }

  function RadicandOf(phat: real, n: real, z: real): real
    requires n > 0.0
  {
    phat * (1.0 - phat) / n + z * z / (4.0 * n * n)
  }

  ghost predicate IsRoot(root: real, x: real) { root >= 0.0 && root * root == x }

  /** `wilson_interval`, given the root of its radicand. */
  function WilsonInterval(hits: int, n: int, z: real, root: real): Interval
  {
    if n <= 0 then Interval(0.0, 1.0)
    else
      var center, margin := Center(hits, n, z), Margin(n, z, root);
      Interval(if center - margin > 0.0 then center - margin else 0.0,
               if center + margin < 1.0 then center + margin else 1.0)
  }

  lemma Quotient(z: real, n: real)
    requires n > 0.0
    ensures z * z / n >= 0.0
  {
    assert z * z >= 0.0;
  }

  /** The score test accepts `p`: it is no further from the observed rate than `z` standard
      errors taken at `p` itself. */
  ghost predicate Accepts(hits: int, n: int, z: real, p: real)
    requires n > 0
  {
    AcceptsAt(hits as real / n as real, n as real, z, p)
  }

  ghost predicate AcceptsAt(f: real, n: real, z: real, p: real) {
    var d := f - p;
    n * (d * d) <= z * z * (p * (1.0 - p))
  }

  // ---- completing the square ---------------------------------------------------------------------

  lemma Squares(p: real, f: real, a: real)
    ensures var u := (1.0 + a) * p - (f + a / 2.0);
            u * u - (a * (f * (1.0 - f)) + a * a / 4.0) == (1.0 + a) * ((f - p) * (f - p) - a * (p * (1.0 - p)))
  {
    var s, b := 1.0 + a, f + a / 2.0;
    var u := s * p - b;
    assert u * u == s * p * (s * p) - 2.0 * (s * p * b) + b * b;
    assert b * b == f * f + f * a + a * a / 4.0;
    assert s * p * (s * p) == s * (s * p * p);
    assert s * p * b == s * (p * b);
    assert f * f * s == f * f + f * f * a;
    assert b * b - (a * (f * (1.0 - f)) + a * a / 4.0) == s * (f * f);
    assert s * p * p == p * p + a * p * p;
    assert p * b == p * f + p * a / 2.0;
    assert s * p * p - 2.0 * (p * b) + f * f == (f - p) * (f - p) - a * (p * (1.0 - p));
    assert s * (s * p * p) - 2.0 * (s * (p * b)) + s * (f * f) == s * (s * p * p - 2.0 * (p * b) + f * f);
  }

  lemma SignOfProduct(s: real, x: real)
    requires s > 0.0
    ensures s * x <= 0.0 <==> x <= 0.0
  {
  }

  lemma ProductOrder(x: real, y: real, u: real, v: real)
    requires 0.0 <= x < u && 0.0 <= y < v
    ensures x * y < u * v
  {
    assert u * v - x * y == (u - x) * v + x * (v - y);
    assert (u - x) * v > 0.0 && x * (v - y) >= 0.0;
  }

  lemma SquareOrder(u: real, w: real)
    requires w >= 0.0
    ensures u * u <= w * w <==> -w <= u <= w
  {
    if u > w {
      ProductOrder(w, w, u, u);
    } else if u < -w {
      ProductOrder(w, w, -u, -u);
    } else {
      assert w * w - u * u == (w - u) * (w + u);
    }
  }

  /** The unclamped interval `c - m .. c + m`, its centre and half width given scaled by
      `s = 1 + a`. */
  lemma QuadraticInterval(p: real, f: real, a: real, s: real, c: real, m: real)
    requires a >= 0.0 && s == 1.0 + a && s * c == f + a / 2.0 && s * m >= 0.0
    requires (s * m) * (s * m) == a * (f * (1.0 - f)) + a * a / 4.0
    ensures c - m <= p <= c + m <==> (f - p) * (f - p) <= a * (p * (1.0 - p))
  {
    var w, u := s * m, s * p - (f + a / 2.0);
    Squares(p, f, a);
    SignOfProduct(s, (f - p) * (f - p) - a * (p * (1.0 - p)));
    SquareOrder(u, w);
    assert s * (c - m - p) == -w - u && s * (p - c - m) == u - w;
    SignOfProduct(s, c - m - p);
    SignOfProduct(s, p - c - m);
  }

  /** `p` solves the quadratic inequality the interval is the solution of. */
  ghost predicate Solves(p: real, f: real, a: real) { (f - p) * (f - p) <= a * (p * (1.0 - p)) }

  lemma Rescale(n: real, z: real, a: real, f: real, p: real)
    requires n > 0.0 && a == z * z / n
    ensures Solves(p, f, a) <==> AcceptsAt(f, n, z, p)
  {
    var d, y := f - p, p * (1.0 - p);
    RescaleBy(n, z, a, d, y);
  }

  lemma RescaleBy(n: real, z: real, a: real, d: real, y: real)
    requires n > 0.0 && a == z * z / n
    ensures d * d <= a * y <==> n * (d * d) <= z * z * y
  {
    assert z * z == n * a;
    assert z * z * y == n * (a * y);
    assert n * (d * d) - n * (a * y) == n * (d * d - a * y);
    SignOfProduct(n, d * d - a * y);
  }

  lemma Cancel(n: real, x: real, y: real)
    requires n > 0.0 && y > 0.0
    ensures n * x / (n * y) == x / y
  {
    var q := x / y;
    assert x == y * q;
    assert n * x == n * y * q;
    assert n * y > 0.0;
  }

  ghost predicate IsHalfWidth(w: real, f: real, a: real) { w * w == a * (f * (1.0 - f)) + a * a / 4.0 }

  lemma HalfWidth(n: real, z: real, f: real, root: real, a: real)
    requires n > 0.0 && a == z * z / n
    requires IsRoot(root, RadicandOf(f, n, z))
    ensures IsHalfWidth(z * root, f, a)
  {
    var y := f * (1.0 - f);
    assert (z * root) * (z * root) == z * z * (root * root);
    assert z * z == n * a;
    assert z * z * (y / n) == a * y by {
      var q := y / n;
      assert y == n * q;
      assert n * a * q == a * (n * q);
    }
    Cancel(n, a, 4.0 * n);
    assert 4.0 * n * n == n * (4.0 * n);
    assert z * z * (a / (4.0 * n)) == a * a / 4.0 by {
      var q := a / (4.0 * n);
      assert a == 4.0 * n * q;
      assert n * a * q == a * (n * q);
    }
  }

  /** Centre and half width of the interval before it is clamped. */
  function Center(hits: int, n: int, z: real): real
    requires n > 0
  {
    Quotient(z, n as real);
    (hits as real / n as real + z * z / (2.0 * n as real)) / (1.0 + z * z / n as real)
  }

  function Margin(n: int, z: real, root: real): real
    requires n > 0
  {
    Quotient(z, n as real);
    z * root / (1.0 + z * z / n as real)
  }

  ghost predicate Within(p: real, center: real, margin: real) { center - margin <= p <= center + margin }

  /** The interval before the clamps is the score test turned round. */
  lemma UnclampedIsScoreTest(hits: int, n: int, z: real, root: real, p: real)
    requires n > 0 && z >= 0.0 && IsRoot(root, Radicand(hits, n, z))
    ensures Within(p, Center(hits, n, z), Margin(n, z, root)) <==> Accepts(hits, n, z, p)
  {
    var m := n as real;
    var f, a := hits as real / m, z * z / m;
    Quotient(z, m);
    HalfWidth(m, z, f, root, a);
    Twice(z * z, m, a);
    assert z * root >= 0.0;
    IntervalOf(p, f, a, 1.0 + a, Center(hits, n, z), Margin(n, z, root), z * root);
    Rescale(m, z, a, f, p);
  }

  lemma IntervalOf(p: real, f: real, a: real, s: real, c: real, m: real, w: real)
    requires a >= 0.0 && s == 1.0 + a && c == (f + a / 2.0) / s && m == w / s && w >= 0.0
    requires IsHalfWidth(w, f, a)
    ensures Within(p, c, m) <==> Solves(p, f, a)
  {
    assert s * c == f + a / 2.0;
    assert s * m == w;
    QuadraticInterval(p, f, a, s, c, m);
  }

  lemma Twice(x: real, n: real, a: real)
    requires n > 0.0 && a == x / n
    ensures x / (2.0 * n) == a / 2.0
  {
    assert x == n * a;
    assert x == 2.0 * n * (a / 2.0);
  }

  lemma OutsideRejects(f: real, p: real, d: real, zz: real, n: real, y: real)
    requires 0.0 <= f <= 1.0 && d == f - p && y == p * (1.0 - p) && zz >= 0.0 && n > 0.0
    ensures p < 0.0 || p > 1.0 ==> n * (d * d) > zz * y
  {
    var e := d * d;
    UnitProduct(p);
    ScaledSign(zz, y);
    SquarePositive(d, e);
    SignOfProduct(n, e);
  }

  lemma SquarePositive(d: real, e: real)
    requires e == d * d
    ensures d != 0.0 ==> e > 0.0
  {
    if d > 0.0 {
      SignOfProduct(d, d);
    } else if d < 0.0 {
      SignOfProduct(-d, -d);
    }
  }

  lemma UnitProduct(p: real)
    ensures 0.0 <= p <= 1.0 <==> p * (1.0 - p) >= 0.0
  {
    var q := 1.0 - p;
    if p > 0.0 {
      SignOfProduct(p, -q);
      SignOfProduct(p, q);
    } else if p < 0.0 {
      SignOfProduct(-p, q);
    }
  }

  lemma ScaledSign(k: real, x: real)
    requires k >= 0.0
    ensures (x <= 0.0 ==> k * x <= 0.0) && (x >= 0.0 ==> k * x >= 0.0)
  {
  }

  lemma AcceptedIsARate(hits: int, n: int, z: real, p: real)
    requires 0 <= hits <= n && n > 0 && Accepts(hits, n, z, p)
    ensures 0.0 <= p <= 1.0
  {
    var f := hits as real / n as real;
    RateInUnit(hits as real, n as real);
    assert z * z >= 0.0;
    OutsideRejects(f, p, f - p, z * z, n as real, p * (1.0 - p));
  }

  lemma RateInUnit(h: real, n: real)
    requires 0.0 <= h <= n && n > 0.0
    ensures 0.0 <= h / n <= 1.0
  {
    var f := h / n;
    assert h == n * f;
    assert n * (f - 1.0) == h - n;
    SignOfProduct(n, f - 1.0);
    SignOfProduct(n, -f);
  }

  /** For `n > 0` the interval is exactly the set of rates the score test accepts; neither clamp
      ever acts, and the observed rate is inside. */
  lemma WilsonIsScoreTest(hits: int, n: int, z: real, root: real, p: real)
    requires 0 <= hits <= n && n > 0 && z >= 0.0 && IsRoot(root, Radicand(hits, n, z))
    ensures var i := WilsonInterval(hits, n, z, root);
            && (i.low <= p <= i.high <==> Accepts(hits, n, z, p))
            && 0.0 <= i.low <= hits as real / n as real <= i.high <= 1.0
  {
    var f, c, m := hits as real / n as real, Center(hits, n, z), Margin(n, z, root);
    RateInUnit(hits as real, n as real);
    RateAccepted(hits, n, z, f);
    MarginNonNegative(n, z, root);
    UnclampedIsScoreTest(hits, n, z, root, p);
    UnclampedIsScoreTest(hits, n, z, root, f);
    UnclampedIsScoreTest(hits, n, z, root, c - m);
    UnclampedIsScoreTest(hits, n, z, root, c + m);
    AcceptedIsARate(hits, n, z, c - m);
    AcceptedIsARate(hits, n, z, c + m);
  }

  lemma RateAccepted(hits: int, n: int, z: real, f: real)
    requires 0 <= hits <= n && n > 0 && f == hits as real / n as real
    ensures Accepts(hits, n, z, f)
  {
    RateInUnit(hits as real, n as real);
    UnitProduct(f);
    assert z * z >= 0.0;
    ScaledSign(z * z, f * (1.0 - f));
  }

  lemma MarginNonNegative(n: int, z: real, root: real)
    requires n > 0 && z >= 0.0 && root >= 0.0
    ensures Margin(n, z, root) >= 0.0
  {
    var s, w := 1.0 + z * z / n as real, z * root;
    Quotient(z, n as real);
    assert w >= 0.0;
    assert s * (w / s) == w;
    SignOfProduct(s, -(w / s));
  }

  // ---- the rates of one horizon ---------------------------------------------------------------------

  /** `_is_hit`: a terminal outcome is a hit for a down pattern. */
  predicate IsHit(v: Verdict, d: Direction) { v == Hit || (d == Down && v == TerminalDelist) }

  /** The resolved instances of one window and horizon. */
  function Sample(rows: seq<(Key, Row)>, window: Window, h: Horizon): seq<(Key, Row)> {
    Filter(rows, (x: (Key, Row)) => x.1.window == window && x.1.resolution.verdict != Open && x.0.horizon == h)
  }

  function HitCount(rows: seq<(Key, Row)>, d: Direction): (n: nat)
    ensures n <= |rows|
  {
    |Filter(rows, (x: (Key, Row)) => IsHit(x.1.resolution.verdict, d))|
  }

  function Rate(rows: seq<(Key, Row)>, d: Direction): Option<real> {
    if rows == [] then None else Some(HitCount(rows, d) as real / |rows| as real)
  }

  /** The decay flag of a horizon: the out-of-sample rate is below the interval. */
  predicate DecayFlag(rows: seq<(Key, Row)>, h: Horizon, d: Direction, z: real, root: real) {
    var est, oos := Sample(rows, EST, h), Rate(Sample(rows, OOS, h), d);
    oos.Some? && oos.value < WilsonInterval(HitCount(est, d), |est|, z, root).low
  }

  /** The flag is raised exactly when both windows have a rate, the out-of-sample one is lower,
      and the score test rejects it. */
  lemma DecayIff(rows: seq<(Key, Row)>, h: Horizon, d: Direction, z: real, root: real)
    requires z >= 0.0
    requires var est := Sample(rows, EST, h); est != [] ==> IsRoot(root, Radicand(HitCount(est, d), |est|, z))
    ensures var est, oos := Sample(rows, EST, h), Rate(Sample(rows, OOS, h), d);
            DecayFlag(rows, h, d, z, root) <==>
            && oos.Some? && Rate(est, d).Some? && oos.value < Rate(est, d).value
            && !Accepts(HitCount(est, d), |est|, z, oos.value)
  {
    var est, out := Sample(rows, EST, h), Sample(rows, OOS, h);
    if out != [] {
      RateInUnit(HitCount(out, d) as real, |out| as real);
      if est != [] {
        WilsonIsScoreTest(HitCount(est, d), |est|, z, root, Rate(out, d).value);
      }
    }
  }
}
