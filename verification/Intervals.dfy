/** Inverse-probability weighted estimates with Wilson intervals, in exact arithmetic. */
module Intervals {
  import opened Text
  import opened Sampling

  datatype Validity = Valid | Invalid | Unresolved

  /** An adjudicated unit of the sample. */
  datatype Adjudicated = Adjudicated(selection: Selection, validity: Validity, authenticated: bool)

  /** An estimate with its interval, or nothing if there is no sample. */
  datatype Metric = Metric(estimate: Option<real>, lower: Option<real>, upper: Option<real>, sampleSize: nat)

  /** The bounds that a metric record checks of itself. */
  predicate Coherent(m: Metric) {
    && (m.sampleSize == 0 ==> m.estimate.None? && m.lower.None? && m.upper.None?)
    && (m.lower.Some? && m.upper.Some? ==> m.lower.value <= m.upper.value)
  }

  // ---------- sums ----------

  function Sum(ws: seq<real>): real {
    if ws == [] then 0.0 else ws[0] + Sum(ws[1..])
  }

  function Squares(ws: seq<real>): seq<real> {
    seq(|ws|, i requires 0 <= i < |ws| => ws[i] * ws[i])
  }

  function SumSquares(ws: seq<real>): real {
    Sum(Squares(ws))
  }

  lemma SumSquaresNext(ws: seq<real>)
    requires ws != []
    ensures SumSquares(ws) == ws[0] * ws[0] + SumSquares(ws[1..])
  {
    assert |Squares(ws)[1..]| == |Squares(ws[1..])|;
    forall i | 0 <= i < |ws| - 1
      ensures Squares(ws)[1..][i] == Squares(ws[1..])[i]
    {
      assert ws[1..][i] == ws[i + 1];
    }
    assert Squares(ws)[1..] == Squares(ws[1..]);
  }

  /** The part of the weights that falls on events. */
  function SumWhere(ws: seq<real>, events: seq<bool>): real
    requires |ws| == |events|
  {
    if ws == [] then 0.0 else (if events[0] then ws[0] else 0.0) + SumWhere(ws[1..], events[1..])
  }

  ghost predicate Positive(ws: seq<real>) {
    forall i | 0 <= i < |ws| :: ws[i] > 0.0
  }

  lemma PositiveTail(ws: seq<real>)
    requires ws != [] && Positive(ws)
    ensures ws[0] > 0.0 && Positive(ws[1..])
  {
    assert forall i | 0 <= i < |ws[1..]| :: ws[1..][i] == ws[i + 1];
  }

  lemma ProductPositive(x: real, y: real)
    requires x > 0.0 && y > 0.0
    ensures x * y > 0.0
  {}

  lemma ProductNonnegative(x: real, y: real)
    requires x >= 0.0 && y >= 0.0
    ensures x * y >= 0.0
  {}

  lemma Product(x: real, y: real) returns (p: real)
    requires x >= 0.0 && y >= 0.0
    ensures p == x * y && p >= 0.0 && (x > 0.0 && y > 0.0 ==> p > 0.0)
  {
    p := x * y;
    ProductNonnegative(x, y);
    if x > 0.0 && y > 0.0 {
      ProductPositive(x, y);
    }
  }

  lemma Square(x: real) returns (s: real)
    ensures s == x * x && s >= 0.0 && (x != 0.0 ==> s > 0.0)
  {
    if x >= 0.0 {
      s := Product(x, x);
    } else {
      s := Product(-x, -x);
    }
  }

  lemma {:induction false} SumIsPositive(ws: seq<real>)
    requires Positive(ws)
    ensures if ws == [] then Sum(ws) == 0.0 else Sum(ws) > 0.0
  {
    if ws == [] {
    } else {
      PositiveTail(ws);
      SumIsPositive(ws[1..]);
    }
  }

  lemma SquaresArePositive(ws: seq<real>)
    requires Positive(ws)
    ensures Positive(Squares(ws))
  {
    forall i | 0 <= i < |ws|
      ensures Squares(ws)[i] > 0.0
    {
      var s := Square(ws[i]);
    }
  }

  lemma {:induction false} PartOfSum(ws: seq<real>, events: seq<bool>)
    requires |ws| == |events| && Positive(ws)
    ensures 0.0 <= SumWhere(ws, events) <= Sum(ws)
  {
    if ws == [] {
    } else {
      PositiveTail(ws);
      PartOfSum(ws[1..], events[1..]);
    }
  }

  lemma SquareOfSum(w: real, s: real)
    ensures (w + s) * (w + s) == w * w + 2.0 * (w * s) + s * s
  {}

  /** One step of the Cauchy-Schwarz inequality. */
  lemma CauchyStep(w: real, s: real, q: real, n: real)
    requires n >= 0.0 && s * s <= n * q && q >= 0.0 && (n == 0.0 ==> s == 0.0)
    ensures w * w + 2.0 * (w * s) + s * s <= (n + 1.0) * (w * w + q)
  {
    assert (n + 1.0) * (w * w + q) == n * (w * w) + n * q + w * w + q;
    if n > 0.0 {
      var d := s - n * w;
      var dd := Square(d);
      assert d * d == s * s - 2.0 * (n * (w * s)) + n * (n * (w * w));
      assert 2.0 * (n * (w * s)) <= n * q + n * (n * (w * w));
      assert n * (2.0 * (w * s)) <= n * (q + n * (w * w));
      CancelFactor(n, 2.0 * (w * s), q + n * (w * w));
    }
  }

  lemma CancelFactor(n: real, x: real, y: real)
    requires n > 0.0 && n * x <= n * y
    ensures x <= y
  {
    assert n * (x - y) == n * x - n * y;
    assert x > y ==> n * (x - y) > 0.0;
  }

  lemma {:induction false} CauchySchwarz(ws: seq<real>)
    ensures Sum(ws) * Sum(ws) <= |ws| as real * SumSquares(ws)
    ensures SumSquares(ws) >= 0.0 && (ws == [] ==> Sum(ws) == 0.0)
  {
    if ws == [] {
    } else {
      var w, rest := ws[0], ws[1..];
      CauchySchwarz(rest);
      SumSquaresNext(ws);
      CauchyStep(w, Sum(rest), SumSquares(rest), |rest| as real);
      SquareOfSum(w, Sum(rest));
      var ww := Square(w);
      assert |ws| as real == |rest| as real + 1.0;
    }
  }

  lemma {:induction false} SquaresAreLess(ws: seq<real>)
    requires Positive(ws)
    ensures SumSquares(ws) <= Sum(ws) * Sum(ws)
  {
    if ws == [] {
    } else {
      var w, rest := ws[0], ws[1..];
      PositiveTail(ws);
      SquaresAreLess(rest);
      SumSquaresNext(ws);
      SumIsPositive(rest);
      SquareOfSum(w, Sum(rest));
      assert w * Sum(rest) >= 0.0;
    }
  }

  function EffectiveSize(ws: seq<real>): real
    requires SumSquares(ws) != 0.0
  {
    Sum(ws) * Sum(ws) / SumSquares(ws)
  }

  lemma QuotientBounds(a: real, b: real, n: real)
    requires b > 0.0 && b <= a <= n * b
    ensures 1.0 <= a / b <= n
  {
    assert a / b * b == a;
    CancelFactor(b, 1.0, a / b);
    CancelFactor(b, a / b, n);
  }

  /** Unequal weights never count for more than the sample size, nor for less than one unit. */
  lemma EffectiveSizeBounds(ws: seq<real>)
    requires ws != [] && Positive(ws)
    ensures SumSquares(ws) > 0.0
    ensures 1.0 <= EffectiveSize(ws) <= |ws| as real
  {
    SquaresArePositive(ws);
    SumIsPositive(Squares(ws));
    CauchySchwarz(ws);
    SquaresAreLess(ws);
    QuotientBounds(Sum(ws) * Sum(ws), SumSquares(ws), |ws| as real);
  }

  // ---------- the interval ----------

  const Z: real := 1.959963984540054

  function Scale(n: real): (s: real)
    requires n > 0.0
    ensures s > 1.0
  {
    PositiveQuotient(Z * Z, n);
    1.0 + Z * Z / n
  }

  lemma PositiveQuotient(x: real, n: real)
    requires x > 0.0 && n > 0.0
    ensures x / n > 0.0
  {}

  function Centre(e: real, n: real): real
    requires n > 0.0
  {
    (e + Z * Z / (2.0 * n)) / Scale(n)
  }

  /** What the square root of the radius is taken of. */
  function Radicand(e: real, n: real): real
    requires n > 0.0
  {
    e * (1.0 - e) / n + Z * Z / (4.0 * n * n)
  }

  function Radius(root: real, n: real): real
    requires n > 0.0
  {
    Z * root / Scale(n)
  }

  predicate IsRoot(root: real, x: real) {
    root >= 0.0 && root * root == x
  }

  lemma RootOrder(x: real, y: real)
    requires y >= 0.0 && x * x <= y * y
    ensures x <= y
  {
    assert (x - y) * (x + y) == x * x - y * y;
    if x > y {
      ProductPositive(x - y, x + y);
    }
  }

  /** `a` stands for z squared over n, and `s` for the scaled radius. */
  ghost predicate IsScaledRadius(s: real, e: real, a: real) {
    s >= 0.0 && s * s == a * (e * (1.0 - e)) + a * a / 4.0
  }

  lemma RadiusBelow(s: real, e: real, a: real)
    requires 0.0 <= e && a > 0.0 && IsScaledRadius(s, e, a)
    ensures s <= e + a / 2.0
  {
    var y := e + a / 2.0;
    assert y * y == s * s + e * e + a * (e * e);
    var ee := Square(e);
    ProductNonnegative(a, e * e);
    RootOrder(s, y);
  }

  lemma Mirrored(s: real, e: real, a: real)
    requires IsScaledRadius(s, e, a)
    ensures IsScaledRadius(s, 1.0 - e, a)
  {
    assert (1.0 - e) * (1.0 - (1.0 - e)) == e * (1.0 - e);
  }

  lemma RadiusAbove(s: real, e: real, a: real)
    requires 0.0 <= e <= 1.0 && a > 0.0 && IsScaledRadius(s, e, a)
    ensures a * (0.5 - e) <= s
  {
    var d := a * (0.5 - e);
    var v := e * (1.0 - e);
    ProductNonnegative(e, 1.0 - e);
    ProductNonnegative(a, v);
    ProductNonnegative(a, a * v);
    assert d * d == a * a / 4.0 - a * (a * v);
    RootOrder(d, s);
  }

  /** Everything scaled by the common denominator. */
  lemma ScaledBounds(e: real, a: real, s: real)
    requires 0.0 <= e <= 1.0 && a > 0.0 && IsScaledRadius(s, e, a)
    ensures s <= e + a / 2.0
    ensures s <= 1.0 - e + a / 2.0
    ensures a * (0.5 - e) <= s && a * (e - 0.5) <= s
  {
    RadiusBelow(s, e, a);
    RadiusAbove(s, e, a);
    Mirrored(s, e, a);
    RadiusBelow(s, 1.0 - e, a);
    RadiusAbove(s, 1.0 - e, a);
    assert a * (0.5 - (1.0 - e)) == a * (e - 0.5);
  }

  lemma QuotientIs(x: real, n: real, q: real)
    requires n != 0.0 && q * n == x
    ensures x / n == q
  {}

  /** The radius of the code, scaled, and its centre, scaled. */
  lemma Scaled(e: real, n: real, root: real)
    requires n > 0.0 && IsRoot(root, Radicand(e, n))
    ensures var a := Z * Z / n;
            && a > 0.0 && a * n == Z * Z && Scale(n) == 1.0 + a
            && IsScaledRadius(Z * root, e, a)
            && e + Z * Z / (2.0 * n) == e + a / 2.0
  {
    var a, v := Z * Z / n, e * (1.0 - e);
    PositiveQuotient(Z * Z, n);
    assert a * n == Z * Z;
    QuotientIs(Z * Z, 2.0 * n, a / 2.0);
    var x, y := v / n, Z * Z / (4.0 * n * n);
    assert x * n == v;
    assert Z * Z * x == a * (x * n);
    var ny := a / 4.0;
    QuotientIs(Z * Z, 4.0 * n * n, a / (4.0 * n)) by {
      assert a / (4.0 * n) * (4.0 * n) == a;
      assert a / (4.0 * n) * (4.0 * n * n) == a / (4.0 * n) * (4.0 * n) * n;
    }
    assert y * (4.0 * n) == a;
    assert Z * Z * y == a * (n * y) == a * (a / 4.0);
    assert (Z * root) * (Z * root) == Z * Z * (x + y);
  }

  lemma QuotientOrder(x: real, y: real, c: real)
    requires c > 0.0
    ensures x <= y * c ==> x / c <= y
    ensures y * c <= x ==> y <= x / c
  {
    var q := x / c;
    assert q * c == x;
    if x <= y * c {
      CancelFactor(c, q, y);
    }
    if y * c <= x {
      CancelFactor(c, y, q);
    }
  }

  lemma CentreAndRadius(e: real, n: real, root: real, s: real, c: real)
    requires n > 0.0 && c == e + Z * Z / (2.0 * n) && s == Z * root
    ensures Centre(e, n) - Radius(root, n) == (c - s) / Scale(n)
    ensures Centre(e, n) + Radius(root, n) == (c + s) / Scale(n)
  {
    var d := Scale(n);
    var x, y := c / d, s / d;
    assert x * d == c && y * d == s;
    QuotientIs(c - s, d, x - y);
    QuotientIs(c + s, d, x + y);
  }

  lemma Unscaled(e: real, a: real, s: real, c: real, d: real)
    requires c == e + a / 2.0 && d == 1.0 + a && a > 0.0
    requires s <= c && s <= 1.0 - e + a / 2.0 && a * (0.5 - e) <= s && a * (e - 0.5) <= s
    ensures 0.0 <= (c - s) / d <= e <= (c + s) / d <= 1.0
  {
    assert e * d == e + a * e;
    assert a * (0.5 - e) == a / 2.0 - a * e;
    assert a * (e - 0.5) == a * e - a / 2.0;
    QuotientOrder(c - s, 0.0, d);
    QuotientOrder(c - s, e, d);
    QuotientOrder(c + s, e, d);
    QuotientOrder(c + s, 1.0, d);
  }

  /** The interval of an estimate lies within [0, 1] and contains the estimate: clamping changes nothing. */
  lemma WilsonBounds(e: real, n: real, root: real)
    requires 0.0 <= e <= 1.0 && n > 0.0 && IsRoot(root, Radicand(e, n))
    ensures 0.0 <= Centre(e, n) - Radius(root, n) <= e <= Centre(e, n) + Radius(root, n) <= 1.0
  {
    var a, s := Z * Z / n, Z * root;
    Scaled(e, n, root);
    var c := e + a / 2.0;
    CentreAndRadius(e, n, root, s, c);
    ScaledBounds(e, a, s);
    Unscaled(e, a, s, c, Scale(n));
  }

  /** Comparing squares compares absolute values. */
  lemma Between(x: real, s: real)
    requires s >= 0.0
    ensures -s <= x <= s <==> x * x <= s * s
  {
    if x * x <= s * s {
      RootOrder(x, s);
      assert (-x) * (-x) == x * x;
      RootOrder(-x, s);
    }
    if -s <= x <= s {
      var p := Product(s - x, s + x);
      assert (s - x) * (s + x) == s * s - x * x;
    }
  }

  lemma SignOfProduct(d: real, x: real)
    requires d > 0.0
    ensures d * x <= 0.0 <==> x <= 0.0
  {
    if x > 0.0 {
      var p := Product(d, x);
    } else {
      var p := Product(d, -x);
      assert d * -x == -(d * x);
    }
  }

  /** `p` lies in the scaled interval exactly if it satisfies the scaled score inequality. */
  lemma ScaledScore(p: real, e: real, a: real, s: real, c: real, d: real)
    requires a > 0.0 && IsScaledRadius(s, e, a) && c == e + a / 2.0 && d == 1.0 + a
    ensures -s <= p * d - c <= s <==> (p - e) * (p - e) <= a * (p * (1.0 - p))
  {
    var x := p * d - c;
    var rest := (p - e) * (p - e) - a * (p * (1.0 - p));
    Between(x, s);
    assert x * x - s * s == d * rest;
    SignOfProduct(d, rest);
  }

  /** The score test: the squared distance from the estimate is at most z squared times the variance p(1-p)/n. */
  predicate NotRefuted(p: real, e: real, n: real) {
    n * ((p - e) * (p - e)) <= Z * Z * (p * (1.0 - p))
  }

  lemma Score(p: real, e: real, n: real, a: real, s: real, c: real, d: real)
    requires n > 0.0 && a > 0.0 && a * n == Z * Z && IsScaledRadius(s, e, a) && c == e + a / 2.0 && d == 1.0 + a
    ensures (c - s) / d <= p <= (c + s) / d <==> NotRefuted(p, e, n)
  {
    Inside(p, c, s, d);
    ScaledScore(p, e, a, s, c, d);
    ScaledTest(p, e, n, a);
  }

  lemma ScaledTest(p: real, e: real, n: real, a: real)
    requires n > 0.0 && a * n == Z * Z
    ensures (p - e) * (p - e) <= a * (p * (1.0 - p)) <==> NotRefuted(p, e, n)
  {
    ScaleSides(n, a, Z * Z, (p - e) * (p - e), p * (1.0 - p));
  }

  lemma Inside(p: real, c: real, s: real, d: real)
    requires d > 0.0
    ensures (c - s) / d <= p <= (c + s) / d <==> -s <= p * d - c <= s
  {
    Threshold(c - s, p, d);
    UpperThreshold(c + s, p, d);
  }

  lemma ScaleSides(n: real, a: real, zz: real, x: real, y: real)
    requires n > 0.0 && a * n == zz
    ensures x <= a * y <==> n * x <= zz * y
  {
    MultiplyOrder(n, x, a * y);
    assert n * (a * y) == a * n * y;
  }

  /** What the interval means: it contains exactly the proportions that the estimate does not refute. */
  lemma WilsonIsScoreInterval(p: real, e: real, n: real, root: real)
    requires n > 0.0 && IsRoot(root, Radicand(e, n))
    ensures Centre(e, n) - Radius(root, n) <= p <= Centre(e, n) + Radius(root, n)
            <==> NotRefuted(p, e, n)
  {
    var a, s := Z * Z / n, Z * root;
    Scaled(e, n, root);
    CentreAndRadius(e, n, root, s, e + a / 2.0);
    Score(p, e, n, a, s, e + a / 2.0, Scale(n));
  }

  lemma Threshold(x: real, p: real, d: real)
    requires d > 0.0
    ensures x / d <= p <==> x <= p * d
  {
    var q := x / d;
    assert q * d == x;
    MultiplyOrder(d, q, p);
  }

  lemma UpperThreshold(x: real, p: real, d: real)
    requires d > 0.0
    ensures p <= x / d <==> p * d <= x
  {
    var q := x / d;
    assert q * d == x;
    MultiplyOrder(d, p, q);
  }

  lemma MultiplyOrder(n: real, x: real, y: real)
    requires n > 0.0
    ensures x <= y <==> n * x <= n * y
  {
    SignOfProduct(n, x - y);
    assert n * (x - y) == n * x - n * y;
  }

  // ---------- the estimate ----------

  type Question = Adjudicated -> bool

  /** The authenticated adjudications in the denominator. */
  function Relevant(samples: seq<Adjudicated>, denominator: Question): seq<Adjudicated> {
    if samples == [] then []
    else
      var rest := Relevant(samples[1..], denominator);
      if samples[0].authenticated && denominator(samples[0]) then [samples[0]] + rest else rest
  }

  predicate Probabilities(samples: seq<Adjudicated>) {
    forall i | 0 <= i < |samples| :: 0.0 < samples[i].selection.probability <= 1.0
  }

  function Weights(samples: seq<Adjudicated>): (ws: seq<real>)
    requires Probabilities(samples)
    ensures |ws| == |samples|
  {
    seq(|samples|, i requires 0 <= i < |samples| => 1.0 / samples[i].selection.probability)
  }

  function Events(samples: seq<Adjudicated>, event: Question): (es: seq<bool>)
    ensures |es| == |samples|
  {
    seq(|samples|, i requires 0 <= i < |samples| => event(samples[i]))
  }

  lemma {:induction false} RelevantProbabilities(samples: seq<Adjudicated>, denominator: Question)
    requires Probabilities(samples)
    ensures Probabilities(Relevant(samples, denominator))
  {
    if samples == [] {
    } else {
      RelevantProbabilities(samples[1..], denominator);
    }
  }

  lemma WeightsArePositive(samples: seq<Adjudicated>)
    requires Probabilities(samples)
    ensures Positive(Weights(samples))
    ensures samples != [] ==> Sum(Weights(samples)) > 0.0 && SumSquares(Weights(samples)) > 0.0
  {
    forall i | 0 <= i < |samples|
      ensures Weights(samples)[i] > 0.0
    {
      PositiveQuotient(1.0, samples[i].selection.probability);
    }
    SumIsPositive(Weights(samples));
    SquaresArePositive(Weights(samples));
    SumIsPositive(Squares(Weights(samples)));
  }

  /** The weighted ratio of the events among the relevant samples. */
  function Ratio(relevant: seq<Adjudicated>, event: Question): real
    requires relevant != [] && Probabilities(relevant)
  {
    WeightsArePositive(relevant);
    SumWhere(Weights(relevant), Events(relevant, event)) / Sum(Weights(relevant))
  }

  function SampleSize(relevant: seq<Adjudicated>): (n: real)
    requires relevant != [] && Probabilities(relevant)
    ensures 1.0 <= n <= |relevant| as real
  {
    WeightsArePositive(relevant);
    EffectiveSizeBounds(Weights(relevant));
    EffectiveSize(Weights(relevant))
  }

  function Least(x: real, y: real): real {
    if x <= y then x else y
  }

  function Greatest(x: real, y: real): real {
    if x >= y then x else y
  }

  /** `_weighted_metric`, with the square root that it takes. */
  function WeightedMetric(samples: seq<Adjudicated>, denominator: Question, event: Question, sqrt: real -> real): Metric
    requires Probabilities(samples)
  {
    RelevantProbabilities(samples, denominator);
    var relevant := Relevant(samples, denominator);
    if relevant == [] then Metric(None, None, None, 0)
    else
      var e, n := Ratio(relevant, event), SampleSize(relevant);
      var root := sqrt(Radicand(e, n));
      Metric(
        Some(e), Some(Greatest(0.0, Centre(e, n) - Radius(root, n))),
        Some(Least(1.0, Centre(e, n) + Radius(root, n))), |relevant|)
  }

  lemma RatioBounds(relevant: seq<Adjudicated>, event: Question)
    requires relevant != [] && Probabilities(relevant)
    ensures 0.0 <= Ratio(relevant, event) <= 1.0
  {
    var ws := Weights(relevant);
    WeightsArePositive(relevant);
    PartOfSum(ws, Events(relevant, event));
    QuotientOrder(SumWhere(ws, Events(relevant, event)), 0.0, Sum(ws));
    QuotientOrder(SumWhere(ws, Events(relevant, event)), 1.0, Sum(ws));
  }

  /**
   A metric is always coherent: without samples it states nothing, and otherwise its interval lies in
   [0, 1], contains the estimate, and is what it was before clamping.
   */
  lemma MetricIsCoherent(samples: seq<Adjudicated>, denominator: Question, event: Question, sqrt: real -> real)
    requires Probabilities(samples)
    requires forall x :: x >= 0.0 ==> IsRoot(sqrt(x), x)
    ensures Probabilities(Relevant(samples, denominator))
    ensures var m := WeightedMetric(samples, denominator, event, sqrt);
            var relevant := Relevant(samples, denominator);
            && Coherent(m) && m.sampleSize == |relevant|
            && (m.estimate.Some? <==> relevant != [])
            && (relevant != [] ==>
                  var e, n := Ratio(relevant, event), SampleSize(relevant);
                  && m.estimate == Some(e) && m.lower.Some? && m.upper.Some?
                  && 0.0 <= m.lower.value <= e <= m.upper.value <= 1.0
                  && m.lower.value == Centre(e, n) - Radius(sqrt(Radicand(e, n)), n)
                  && m.upper.value == Centre(e, n) + Radius(sqrt(Radicand(e, n)), n))
  {
    var relevant := Relevant(samples, denominator);
    RelevantProbabilities(samples, denominator);
    if relevant != [] {
      var e, n := Ratio(relevant, event), SampleSize(relevant);
      RatioBounds(relevant, event);
      RadicandNonnegative(e, n);
      WilsonBounds(e, n, sqrt(Radicand(e, n)));
    }
  }

  /** The interval of a metric holds exactly the proportions not refuted at the effective sample size. */
  lemma MetricInterval(samples: seq<Adjudicated>, denominator: Question, event: Question, sqrt: real -> real, p: real)
    requires Probabilities(samples) && Probabilities(Relevant(samples, denominator))
             && Relevant(samples, denominator) != []
    requires forall x :: x >= 0.0 ==> IsRoot(sqrt(x), x)
    ensures var m := WeightedMetric(samples, denominator, event, sqrt);
            && m.estimate.Some? && m.lower.Some? && m.upper.Some?
            && (m.lower.value <= p <= m.upper.value
                <==> NotRefuted(p, m.estimate.value, SampleSize(Relevant(samples, denominator))))
  {
    var relevant := Relevant(samples, denominator);
    var e, n := Ratio(relevant, event), SampleSize(relevant);
    MetricIsCoherent(samples, denominator, event, sqrt);
    RatioBounds(relevant, event);
    RadicandNonnegative(e, n);
    WilsonIsScoreInterval(p, e, n, sqrt(Radicand(e, n)));
  }

  lemma RadicandNonnegative(e: real, n: real)
    requires 0.0 <= e <= 1.0 && n > 0.0
    ensures Radicand(e, n) >= 0.0
  {
    var v := Product(e, 1.0 - e);
    QuotientOrder(v, 0.0, n);
    var nn := Product(4.0 * n, n);
    PositiveQuotient(Z * Z, 4.0 * n * n);
  }

  // ---------- estimates of a whole population ----------

  function Indicator(truth: Entry -> bool): Entry -> real {
    e => if truth(e) then 1.0 else 0.0
  }

  function Both(p: Entry -> bool, q: Entry -> bool): Entry -> bool {
    e => p(e) && q(e)
  }

  /** Every selected unit is adjudicated, in order, and authenticated. */
  ghost predicate Adjudicates(samples: seq<Adjudicated>, selections: seq<Selection>) {
    && |samples| == |selections|
    && forall i | 0 <= i < |samples| :: samples[i].selection == selections[i] && samples[i].authenticated
  }

  /** The question is answered by a property of the unit itself. */
  ghost predicate Answers(samples: seq<Adjudicated>, question: Question, truth: Entry -> bool) {
    forall i | 0 <= i < |samples| :: question(samples[i]) == truth(samples[i].selection.entry)
  }

  lemma SampleSums(samples: seq<Adjudicated>, event: Question)
    requires samples != [] && Probabilities(samples)
    ensures Probabilities(samples[1..])
    ensures Sum(Weights(samples)) == 1.0 / samples[0].selection.probability + Sum(Weights(samples[1..]))
    ensures SumWhere(Weights(samples), Events(samples, event)) ==
            (if event(samples[0]) then 1.0 / samples[0].selection.probability else 0.0)
            + SumWhere(Weights(samples[1..]), Events(samples[1..], event))
  {
    assert Weights(samples)[1..] == Weights(samples[1..]);
    assert Events(samples, event)[1..] == Events(samples[1..], event);
  }

  /** The two sums of the ratio are weighted totals of the population. */
  lemma {:induction false} SumsAreTotals(
    samples: seq<Adjudicated>, selections: seq<Selection>, denominator: Question, event: Question,
    inside: Entry -> bool, hit: Entry -> bool)
    requires Probabilities(samples) && Adjudicates(samples, selections)
    requires Answers(samples, denominator, inside) && Answers(samples, event, hit)
    ensures Probabilities(Relevant(samples, denominator))
    ensures forall s <- selections :: s.probability > 0.0
    ensures Sum(Weights(Relevant(samples, denominator))) == Weighted(Indicator(inside), selections)
    ensures SumWhere(Weights(Relevant(samples, denominator)), Events(Relevant(samples, denominator), event))
            == Weighted(Indicator(Both(inside, hit)), selections)
  {
    RelevantProbabilities(samples, denominator);
    if samples != [] {
      SumsAreTotals(samples[1..], selections[1..], denominator, event, inside, hit);
      assert selections == [selections[0]] + selections[1..];
      var relevant := Relevant(samples, denominator);
      if denominator(samples[0]) {
        SampleSums(relevant, event);
        assert relevant[1..] == Relevant(samples[1..], denominator);
      }
    }
  }

  /** Each stratum is drawn whole, or its units are all alike in what is asked. */
  ghost predicate Representative(entries: seq<Entry>, strata: seq<Stratum>, truth: Entry -> bool) {
    forall st <- strata ::
      st.sampleSize == |Members(entries, st.cell)| || Constant(Indicator(truth), Members(entries, st.cell))
  }

  /**
   The estimate is the population's proportion when the whole selection is adjudicated and each
   stratum is drawn whole or is homogeneous; in particular when every stratum is drawn whole.
   */
  lemma EstimateIsProportion(
    entries: seq<Entry>, strata: seq<Stratum>, rank: Ranking, samples: seq<Adjudicated>,
    denominator: Question, event: Question, inside: Entry -> bool, hit: Entry -> bool, sqrt: real -> real)
    requires Derivable(entries, strata) && Adjudicates(samples, Selected(entries, strata, rank))
    requires Answers(samples, denominator, inside) && Answers(samples, event, hit)
    requires Representative(entries, strata, inside) && Representative(entries, strata, Both(inside, hit))
    ensures Probabilities(samples)
    ensures var all, hits := Total(Indicator(inside), entries), Total(Indicator(Both(inside, hit)), entries);
            WeightedMetric(samples, denominator, event, sqrt).estimate == if all == 0.0 then None else Some(hits / all)
  {
    var selections := Selected(entries, strata, rank);
    WeightedTotalIsExact(Indicator(inside), entries, strata, rank);
    WeightedTotalIsExact(Indicator(Both(inside, hit)), entries, strata, rank);
    forall i | 0 <= i < |samples|
      ensures 0.0 < samples[i].selection.probability <= 1.0
    {
      assert samples[i].selection == selections[i] && selections[i] in selections;
    }
    SumsAreTotals(samples, selections, denominator, event, inside, hit);
    WeightsArePositive(Relevant(samples, denominator));
    SumIsPositive(Weights(Relevant(samples, denominator)));
  }
}
