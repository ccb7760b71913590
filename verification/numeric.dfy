/** Real-number helpers shared by the tension estimator, the per-frame
    smoothing, the particle update and the tension display. JavaScript
    numbers are modelled as mathematical reals: there is no rounding, no NaN
    and no infinity. */
module Numeric {

  /** `Math.min(a, b)`. */
  function Min(a: real, b: real): (r: real)
    ensures r <= a && r <= b
    ensures r == a || r == b
  {
    if a <= b then a else b
  }

  /** `Math.max(a, b)`. */
  function Max(a: real, b: real): (r: real)
    ensures r >= a && r >= b
    ensures r == a || r == b
  {
    if a >= b then a else b
  }

  function Abs(x: real): (r: real)
    ensures r >= 0.0
    ensures r == x || r == -x
  {
    if x < 0.0 then -x else x
  }

  /** `Math.max(0, Math.min(1, x))`: the clamp used for hand tension and for
      colour channels. */
  function Clamp01(x: real): (r: real)
    ensures 0.0 <= r <= 1.0
    ensures 0.0 <= x <= 1.0 ==> r == x
    ensures x < 0.0 ==> r == 0.0
    ensures x > 1.0 ==> r == 1.0
  {
    Max(0.0, Min(1.0, x))
  }

  lemma Clamp01Monotone(x: real, y: real)
    requires x <= y
    ensures Clamp01(x) <= Clamp01(y)
  {
  }

  /** `a` lies between `b` and `c`, in whichever order those two come. */
  predicate Between(a: real, b: real, c: real)
  {
    (b <= c ==> b <= a <= c) && (c <= b ==> c <= a <= b)
  }

  /** One first-order low-pass step of `x` toward `t`: `x + (t - x) * rate`.
      This is both the per-frame smoothing of the interaction value and the
      per-tick move of a particle coordinate toward its target. */
  function Lerp(x: real, t: real, rate: real): (r: real)
    ensures r - t == (1.0 - rate) * (x - t)
  {
    x + (t - x) * rate
  }

  /** For a rate in [0, 1] a step never overshoots: the result lies between
      the start and the target. */
  lemma LerpBetween(x: real, t: real, rate: real)
    requires 0.0 <= rate <= 1.0
    ensures Between(Lerp(x, t, rate), x, t)
  {
    var r := Lerp(x, t, rate);
    var d := t - x;
    assert r - x == rate * d;
    assert t - r == (1.0 - rate) * d;
    SplitSigns(d, rate);
  }

  /** Both parts of `d` split in the proportion `rate : 1 - rate` have the
      sign of `d`. */
  lemma SplitSigns(d: real, rate: real)
    requires 0.0 <= rate <= 1.0
    ensures d >= 0.0 ==> rate * d >= 0.0 && (1.0 - rate) * d >= 0.0
    ensures d <= 0.0 ==> rate * d <= 0.0 && (1.0 - rate) * d <= 0.0
  {
    if d >= 0.0 {
      MulMonotone(rate, 0.0, d);
      MulMonotone(1.0 - rate, 0.0, d);
    } else {
      MulMonotone(rate, d, 0.0);
      MulMonotone(1.0 - rate, d, 0.0);
    }
  }

  /** For a rate in [0, 1] a step scales the distance to the target by
      exactly `1 - rate`. */
  lemma LerpDistance(x: real, t: real, rate: real)
    requires 0.0 <= rate <= 1.0
    ensures Abs(Lerp(x, t, rate) - t) == (1.0 - rate) * Abs(x - t)
  {
    AbsScale(1.0 - rate, x - t);
  }

  /** `b` to the power `n`. */
  function Pow(b: real, n: nat): real
  {
    if n == 0 then 1.0 else b * Pow(b, n - 1)
  }

  lemma {:induction false} PowBounds(b: real, n: nat)
    requires 0.0 <= b <= 1.0
    ensures 0.0 <= Pow(b, n) <= 1.0
  {
    if n > 0 {
      PowBounds(b, n - 1);
      assert b * Pow(b, n - 1) <= Pow(b, n - 1) by {
        assert (1.0 - b) * Pow(b, n - 1) >= 0.0;
      }
    }
  }

  /** `n` successive `Lerp` steps of `x` toward the fixed target `t`. */
  function LerpIter(x: real, t: real, rate: real, n: nat): real
  {
    if n == 0 then x else Lerp(LerpIter(x, t, rate, n - 1), t, rate)
  }

  /** With a fixed target, the distance to the target after `n` steps is the
      initial distance scaled by `(1 - rate)^n`. */
  lemma {:induction false} LerpIterClosedForm(x: real, t: real, rate: real, n: nat)
    ensures LerpIter(x, t, rate, n) - t == Pow(1.0 - rate, n) * (x - t)
  {
    if n > 0 {
      LerpIterClosedForm(x, t, rate, n - 1);
      ComposeScaling(x, LerpIter(x, t, rate, n - 1), LerpIter(x, t, rate, n), t,
                     Pow(1.0 - rate, n - 1), 1.0 - rate);
    }
  }

  /** Two successive scalings of the offset from `t` compose by multiplying. */
  lemma ComposeScaling(x: real, y: real, z: real, t: real, p: real, a: real)
    requires y - t == p * (x - t)
    requires z - t == a * (y - t)
    ensures z - t == (a * p) * (x - t)
  {
  }

  lemma MulMonotone(a: real, b: real, c: real)
    requires a >= 0.0
    requires b <= c
    ensures a * b <= a * c
  {
    assert a * c - a * b == a * (c - b);
  }

  lemma AbsScale(p: real, y: real)
    requires p >= 0.0
    ensures Abs(p * y) == p * Abs(y)
  {
    if y < 0.0 {
      assert p * y == -(p * -y);
      MulMonotone(p, y, 0.0);
    } else {
      MulMonotone(p, 0.0, y);
    }
  }

  /** Bernoulli's inequality in the form `(1 - r)^n * (1 + n r) <= 1`. */
  lemma {:induction false} PowBernoulli(rate: real, n: nat)
    requires 0.0 <= rate <= 1.0
    ensures Pow(1.0 - rate, n) * (1.0 + (n as real) * rate) <= 1.0
  {
    if n > 0 {
      PowBernoulli(rate, n - 1);
      PowBounds(1.0 - rate, n - 1);
      BernoulliStep(rate, (n - 1) as real, Pow(1.0 - rate, n - 1));
    }
  }

  lemma BernoulliStep(rate: real, m: real, p: real)
    requires 0.0 <= rate <= 1.0
    requires m >= 0.0
    requires 0.0 <= p
    requires p * (1.0 + m * rate) <= 1.0
    ensures ((1.0 - rate) * p) * (1.0 + (m + 1.0) * rate) <= 1.0
  {
    var k := (1.0 - rate) * (1.0 + (m + 1.0) * rate);
    assert k == 1.0 + m * rate - (m + 1.0) * rate * rate;
    MulMonotone((m + 1.0) * rate, 0.0, rate);
    assert k <= 1.0 + m * rate;
    MulMonotone(p, k, 1.0 + m * rate);
    assert ((1.0 - rate) * p) * (1.0 + (m + 1.0) * rate) == p * k;
  }

  /** Repeated steps toward a fixed target get as close to it as one likes:
      for every positive `eps` some number of steps lands within `eps`. */
  lemma LerpIterConverges(x: real, t: real, rate: real, eps: real) returns (n: nat)
    requires 0.0 < rate <= 1.0
    requires eps > 0.0
    ensures Abs(LerpIter(x, t, rate, n) - t) < eps
  {
    n := StepsBeyond(Abs(x - t), rate, eps);
    LerpIterClosedForm(x, t, rate, n);
    PowBernoulli(rate, n);
    PowBounds(1.0 - rate, n);
    WithinBound(LerpIter(x, t, rate, n), x, t, Pow(1.0 - rate, n), (n as real) * rate, eps);
  }

  lemma WithinBound(v: real, x: real, t: real, p: real, k: real, eps: real)
    requires v - t == p * (x - t)
    requires 0.0 <= p
    requires Abs(x - t) < k * eps
    requires p * (1.0 + k) <= 1.0
    requires eps > 0.0
    ensures Abs(v - t) < eps
  {
    AbsScale(p, x - t);
    FinalBound(p, Abs(x - t), k, eps);
  }

  /** A step count `n` with `d < n * rate * eps`. */
  lemma StepsBeyond(d: real, rate: real, eps: real) returns (n: nat)
    requires d >= 0.0
    requires rate > 0.0
    requires eps > 0.0
    ensures d < ((n as real) * rate) * eps
  {
    var q := rate * eps;
    MulPositive(rate, eps);
    n := (d / q).Floor as nat + 1;
    var nr := n as real;
    assert d / q < nr;
    assert (d / q) * q == d;
    MulMonotone(q, d / q, nr);
    assert d != nr * q;
    MulAssoc(nr, rate, eps);
  }

  lemma MulPositive(a: real, b: real)
    requires a > 0.0
    requires b > 0.0
    ensures a * b > 0.0
  {
  }

  lemma MulAssoc(a: real, b: real, c: real)
    ensures a * (b * c) == (a * b) * c
  {
  }

  lemma FinalBound(p: real, d: real, k: real, eps: real)
    requires 0.0 <= p
    requires 0.0 <= d < k * eps
    requires p * (1.0 + k) <= 1.0
    requires eps > 0.0
    ensures p * d < eps
  {
    if p == 0.0 {
      return;
    }
    MulMonotone(p, d, k * eps);
    assert p * d != p * (k * eps);
    assert p * (k * eps) == (p * k) * eps;
    assert p * k <= 1.0 - p;
    MulMonotone(eps, p * k, 1.0 - p);
    assert (1.0 - p) * eps < eps;
  }
}
