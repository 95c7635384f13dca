/** Behavioural baselines: an exponentially weighted mean and variance plus a bounded sample ring. */
module Baselines {
  import opened Common

  // ---- The batch statistics the incremental form is measured against ----

  function Pow(b: real, n: nat): real {
    if n == 0 then 1.0 else b * Pow(b, n - 1)
  }

  /** Weight of observation `i` (from 0) among `n`: the first seeds the series, later ones enter with
      `alpha`, and every later observation discounts the earlier ones by `1 - alpha`. */
  function Weight(alpha: real, n: nat, i: nat): real
    requires i < n
  {
    if i == 0 then Pow(1.0 - alpha, n - 1) else alpha * Pow(1.0 - alpha, n - 1 - i)
  }

  /** The sum over the first `k` observations of weight times `f(observation)`. */
  function WeightedSum(alpha: real, xs: seq<real>, f: real -> real, k: nat): real
    requires k <= |xs|
  {
    if k == 0 then 0.0 else WeightedSum(alpha, xs, f, k - 1) + Weight(alpha, |xs|, k - 1) * f(xs[k - 1])
  }

  function One(): real -> real { x => 1.0 }
  function Self(): real -> real { x => x }
  function Square(): real -> real { x => x * x }
  function SquaredDistance(m: real): real -> real { x => (x - m) * (x - m) }

  function BatchMean(alpha: real, xs: seq<real>): real {
    WeightedSum(alpha, xs, Self(), |xs|)
  }

  /** The weighted mean squared distance from the weighted mean. */
  function BatchVariance(alpha: real, xs: seq<real>): real {
    WeightedSum(alpha, xs, SquaredDistance(BatchMean(alpha, xs)), |xs|)
  }

  // ---- One more observation ----

  lemma WeightStep(alpha: real, n: nat, i: nat)
    requires i < n
    ensures IsProduct(Weight(alpha, n + 1, i), 1.0 - alpha, Weight(alpha, n, i))
  {
    var b := 1.0 - alpha;
    if i == 0 {
      assert Pow(b, n) == b * Pow(b, n - 1);
    } else {
      assert Pow(b, n - i) == b * Pow(b, n - 1 - i);
      Reassociate(alpha, b, Pow(b, n - 1 - i), Pow(b, n - i), Weight(alpha, n, i));
    }
  }

  lemma Reassociate(a: real, b: real, p: real, p': real, w: real)
    requires p' == b * p && w == a * p
    ensures a * p' == b * w
  {
  }

  ghost predicate IsProduct(t: real, b: real, s: real) { t == b * s }

  ghost predicate IsSumWith(t: real, s: real, w: real, y: real) { t == s + w * y }

  lemma SumStep(alpha: real, xs: seq<real>, f: real -> real, k: nat)
    requires 0 < k <= |xs|
    ensures IsSumWith(WeightedSum(alpha, xs, f, k), WeightedSum(alpha, xs, f, k - 1), Weight(alpha, |xs|, k - 1),
            f(xs[k - 1]))
  {
  }

  /** One summand of a discounted sum: `s` and `t` are the sums without and with it, `s'` and `t'` the
      discounted ones. */
  lemma DiscountStep(b: real, s: real, s': real, w: real, w': real, y: real, t: real, t': real)
    requires IsProduct(s', b, s) && IsProduct(w', b, w) && IsSumWith(t, s, w, y) && IsSumWith(t', s', w', y)
    ensures IsProduct(t', b, t)
  {
    assert w' * y == b * (w * y);
  }

  lemma {:induction false} DiscountWeights(alpha: real, xs: seq<real>, ys: seq<real>, f: real -> real, k: nat)
    requires k <= |xs| < |ys| == |xs| + 1 && xs == ys[..|xs|]
    ensures IsProduct(WeightedSum(alpha, ys, f, k), 1.0 - alpha, WeightedSum(alpha, xs, f, k))
  {
    if k > 0 {
      DiscountWeights(alpha, xs, ys, f, k - 1);
      WeightStep(alpha, |xs|, k - 1);
      SumStep(alpha, xs, f, k);
      SumStep(alpha, ys, f, k);
      DiscountStep(1.0 - alpha, WeightedSum(alpha, xs, f, k - 1), WeightedSum(alpha, ys, f, k - 1),
                   Weight(alpha, |xs|, k - 1), Weight(alpha, |ys|, k - 1), f(xs[k - 1]),
                   WeightedSum(alpha, xs, f, k), WeightedSum(alpha, ys, f, k));
    }
  }

  lemma Single(alpha: real, x: real, f: real -> real)
    ensures WeightedSum(alpha, [x], f, 1) == f(x)
  {
    assert WeightedSum(alpha, [x], f, 0) == 0.0;
    assert Weight(alpha, 1, 0) == Pow(1.0 - alpha, 0) == 1.0;
  }

  /** `t'` mixes `t` and `y` in the proportions of one update. */
  ghost predicate IsBlend(t': real, alpha: real, t: real, y: real) { t' == (1.0 - alpha) * t + alpha * y }

  /** Appending an observation discounts the whole sum and adds the newcomer's share. */
  lemma OneMore(alpha: real, xs: seq<real>, x: real, f: real -> real)
    requires xs != []
    ensures IsBlend(WeightedSum(alpha, xs + [x], f, |xs| + 1), alpha, WeightedSum(alpha, xs, f, |xs|), f(x))
  {
    DiscountWeights(alpha, xs, xs + [x], f, |xs|);
    NewestWeight(alpha, |xs|);
    SumStep(alpha, xs + [x], f, |xs| + 1);
  }

  lemma NewestWeight(alpha: real, n: nat)
    requires n > 0
    ensures Weight(alpha, n + 1, n) == alpha
  {
    assert Pow(1.0 - alpha, 0) == 1.0;
  }

  lemma {:induction false} WeightsSumToOne(alpha: real, xs: seq<real>)
    requires xs != []
    ensures WeightedSum(alpha, xs, One(), |xs|) == 1.0
  {
    var front, x := xs[..|xs| - 1], xs[|xs| - 1];
    assert xs == front + [x];
    if front == [] {
      assert xs == [x];
      Single(alpha, x, One());
    } else {
      WeightsSumToOne(alpha, front);
      OneMore(alpha, front, x, One());
      assert One()(x) == 1.0;
    }
  }

  /** The second moment `t` about `m` in terms of the mean square `q`, the sum `s` and the weight `u`. */
  ghost predicate IsExpansion(t: real, q: real, s: real, u: real, m: real) {
    t == q - (2.0 * m) * s + (m * m) * u
  }

  /** The four summands of one observation. */
  ghost predicate AreTerms(ft: real, fq: real, fs: real, fu: real, x: real, m: real) {
    ft == (x - m) * (x - m) && fq == x * x && fs == x && fu == 1.0
  }

  lemma TermsOf(x: real, m: real)
    ensures AreTerms(SquaredDistance(m)(x), Square()(x), Self()(x), One()(x), x, m)
  {
  }

  lemma ExpandStep(m: real, w: real, x: real, t: real, q: real, s: real, u: real, t': real, q': real, s': real,
                   u': real,
                   ft: real, fq: real, fs: real, fu: real)
    requires IsExpansion(t, q, s, u, m)
    requires AreTerms(ft, fq, fs, fu, x, m)
    requires IsSumWith(t', t, w, ft) && IsSumWith(q', q, w, fq) && IsSumWith(s', s, w, fs) && IsSumWith(u', u, w, fu)
    ensures IsExpansion(t', q', s', u', m)
  {
    var d := m * m;
    assert ft == fq - 2.0 * (m * x) + d;
    assert w * ft == w * fq - 2.0 * (w * (m * x)) + w * d;
    assert w * (m * x) == m * (w * x);
    assert (2.0 * m) * s' == (2.0 * m) * s + 2.0 * (m * (w * x));
    assert d * u' == d * u + w * d;
  }

  lemma {:induction false} ExpandSquares(alpha: real, xs: seq<real>, m: real, k: nat)
    requires k <= |xs|
    ensures IsExpansion(WeightedSum(alpha, xs, SquaredDistance(m), k), WeightedSum(alpha, xs, Square(), k),
                        WeightedSum(alpha, xs, Self(), k), WeightedSum(alpha, xs, One(), k), m)
  {
    if k > 0 {
      var x := xs[k - 1];
      ExpandSquares(alpha, xs, m, k - 1);
      SumStep(alpha, xs, SquaredDistance(m), k);
      SumStep(alpha, xs, Square(), k);
      SumStep(alpha, xs, Self(), k);
      SumStep(alpha, xs, One(), k);
      TermsOf(x, m);
      ExpandStep(m, Weight(alpha, |xs|, k - 1), x,
                 WeightedSum(alpha, xs, SquaredDistance(m), k - 1), WeightedSum(alpha, xs, Square(), k - 1),
                 WeightedSum(alpha, xs, Self(), k - 1), WeightedSum(alpha, xs, One(), k - 1),
                 WeightedSum(alpha, xs, SquaredDistance(m), k), WeightedSum(alpha, xs, Square(), k),
                 WeightedSum(alpha, xs, Self(), k), WeightedSum(alpha, xs, One(), k),
                 SquaredDistance(m)(x), Square()(x), Self()(x), One()(x));
    }
  }

  ghost predicate IsVariance(v: real, q: real, m: real) { v == q - m * m }

  lemma MeanCancels(v: real, q: real, s: real, u: real, m: real)
    requires IsExpansion(v, q, s, u, m) && u == 1.0 && s == m
    ensures IsVariance(v, q, m)
  {
  }

  /** The weighted variance is the mean square less the squared mean. */
  lemma VarianceIsMoments(alpha: real, xs: seq<real>)
    requires xs != []
    ensures IsVariance(BatchVariance(alpha, xs), WeightedSum(alpha, xs, Square(), |xs|), BatchMean(alpha, xs))
  {
    var m := BatchMean(alpha, xs);
    ExpandSquares(alpha, xs, m, |xs|);
    WeightsSumToOne(alpha, xs);
    MeanCancels(BatchVariance(alpha, xs), WeightedSum(alpha, xs, Square(), |xs|),
                WeightedSum(alpha, xs, Self(), |xs|), WeightedSum(alpha, xs, One(), |xs|), m);
  }

  // ---- The incremental form ----

  datatype Stats = Stats(mean: real, variance: real)

  /** `Baseline.update` on the two moments. */
  function Fold(alpha: real, s: Stats, x: real): Stats {
    var d := x - s.mean;
    var step := alpha * d;
    Stats(s.mean + step, (1.0 - alpha) * (s.variance + step * d))
  }

  /** A series is seeded by its first value and folds in the rest. */
  function Ewma(alpha: real, xs: seq<real>): Stats
    requires xs != []
  {
    if |xs| == 1 then Stats(xs[0], 0.0)
    else Fold(alpha, Ewma(alpha, xs[..|xs| - 1]), xs[|xs| - 1])
  }

  function Batch(alpha: real, xs: seq<real>): Stats {
    Stats(BatchMean(alpha, xs), BatchVariance(alpha, xs))
  }

  /** The new mean and variance after a step `e` of a deviation `d`. */
  ghost predicate IsStep(m': real, v': real, alpha: real, m: real, v: real, d: real, e: real) {
    m' == m + e && v' == (1.0 - alpha) * (v + e * d)
  }

  lemma StepIsFold(alpha: real, s: Stats, x: real, s': Stats, d: real, e: real)
    requires IsStep(s'.mean, s'.variance, alpha, s.mean, s.variance, d, e) && d == x - s.mean && e == alpha * d
    ensures s' == Fold(alpha, s, x)
  {
  }

  /** The products of the update rule, named: `mm`, `me`, `ed`, `ee` stand for `m*m`, `m*e`, `e*d`, `e*e`. */
  lemma UpdateArithmetic(alpha: real, x: real, y: real, q: real, m: real, v: real, q': real, m': real, v': real,
                         d: real, e: real)
    requires IsVariance(v, q, m) && IsVariance(v', q', m') && y == x * x
    requires IsBlend(m', alpha, m, x) && IsBlend(q', alpha, q, y)
    requires d == x - m && e == alpha * d
    ensures IsStep(m', v', alpha, m, v, d, e)
  {
    var mm, me, ed, ee := m * m, m * e, e * d, e * e;
    BlendIsStep(m', alpha, m, x, d, e);
    SquareOfSum(m', m, e, mm, me, ee);
    ScaledSquare(alpha, y, x, m, d, e, mm, me, ed);
    DiscountedQ(q', alpha, q, y);
    DiscountedV(alpha, v, q, mm, d, e, ed, ee);
  }

  lemma BlendIsStep(m': real, alpha: real, m: real, x: real, d: real, e: real)
    requires IsBlend(m', alpha, m, x) && d == x - m && e == alpha * d
    ensures m' == m + e
  {
  }

  lemma SquareOfSum(m': real, m: real, e: real, mm: real, me: real, ee: real)
    requires m' == m + e && mm == m * m && me == m * e && ee == e * e
    ensures m' * m' == mm + 2.0 * me + ee
  {
  }

  lemma ScaledSquare(alpha: real, y: real, x: real, m: real, d: real, e: real, mm: real, me: real, ed: real)
    requires y == x * x && d == x - m && e == alpha * d && mm == m * m && me == m * e && ed == e * d
    ensures alpha * y == alpha * mm + 2.0 * me + ed
  {
    assert y == mm + 2.0 * (m * d) + d * d;
    assert alpha * (m * d) == me && alpha * (d * d) == ed;
  }

  lemma DiscountedQ(q': real, alpha: real, q: real, y: real)
    requires IsBlend(q', alpha, q, y)
    ensures q' == q - alpha * q + alpha * y
  {
  }

  lemma DiscountedV(alpha: real, v: real, q: real, mm: real, d: real, e: real, ed: real, ee: real)
    requires v == q - mm && e == alpha * d && ed == e * d && ee == e * e
    ensures (1.0 - alpha) * (v + e * d) == v + ed - (alpha * q - alpha * mm) - ee
  {
    assert alpha * ed == ee;
    assert (1.0 - alpha) * (v + ed) == v + ed - alpha * v - alpha * ed;
  }

  /** The batch moments of one more value: blended mean and mean square, and variance by moments. */
  lemma {:induction false} BatchOneMore(alpha: real, xs: seq<real>, x: real)
    requires xs != []
    ensures IsBlend(BatchMean(alpha, xs + [x]), alpha, BatchMean(alpha, xs), x)
    ensures IsBlend(MeanSquare(alpha, xs + [x]), alpha, MeanSquare(alpha, xs), x * x)
  {
    OneMore(alpha, xs, x, Self());
    OneMore(alpha, xs, x, Square());
  }

  function MeanSquare(alpha: real, xs: seq<real>): real {
    WeightedSum(alpha, xs, Square(), |xs|)
  }

  lemma {:induction false} BatchVariances(alpha: real, xs: seq<real>)
    requires xs != []
    ensures IsVariance(BatchVariance(alpha, xs), MeanSquare(alpha, xs), BatchMean(alpha, xs))
  {
    VarianceIsMoments(alpha, xs);
  }

  /** Folding in one value turns the batch statistics of `xs` into those of `xs + [x]`. */
  lemma {:induction false} FoldIsBatch(alpha: real, xs: seq<real>, x: real)
    requires xs != []
    ensures Batch(alpha, xs + [x]) == Fold(alpha, Batch(alpha, xs), x)
  {
    BatchOneMore(alpha, xs, x);
    BatchVariances(alpha, xs);
    BatchVariances(alpha, xs + [x]);
    MomentsFold(alpha, x, Batch(alpha, xs), MeanSquare(alpha, xs), Batch(alpha, xs + [x]), MeanSquare(alpha, xs + [x]));
  }

  /** The update rule from the moments alone. */
  lemma MomentsFold(alpha: real, x: real, s: Stats, q: real, s': Stats, q': real)
    requires IsVariance(s.variance, q, s.mean) && IsVariance(s'.variance, q', s'.mean)
    requires IsBlend(s'.mean, alpha, s.mean, x) && IsBlend(q', alpha, q, x * x)
    ensures s' == Fold(alpha, s, x)
  {
    var d := x - s.mean;
    var e := alpha * d;
    UpdateArithmetic(alpha, x, x * x, q, s.mean, s.variance, q', s'.mean, s'.variance, d, e);
    StepIsFold(alpha, s, x, s', d, e);
  }

  lemma FirstIsBatch(alpha: real, x: real)
    ensures Batch(alpha, [x]) == Stats(x, 0.0)
  {
    Single(alpha, x, Self());
    Single(alpha, x, SquaredDistance(x));
    assert (x - x) * (x - x) == 0.0;
  }

  /** The incremental mean and variance are exactly the weighted batch mean and the weighted variance
      about it. */
  lemma {:induction false} EwmaIsBatch(alpha: real, xs: seq<real>)
    requires xs != []
    ensures Ewma(alpha, xs) == Batch(alpha, xs)
  {
    var front, x := xs[..|xs| - 1], xs[|xs| - 1];
    assert xs == front + [x];
    if front == [] {
      assert xs == [x];
      FirstIsBatch(alpha, x);
    } else {
      EwmaIsBatch(alpha, front);
      FoldIsBatch(alpha, front, x);
    }
  }

  // ---- Bounds ----

  /** One update keeps the mean inside the observed range and the variance under the largest variance
      any distribution on that range with that mean can have. `p` and `r` are the distances of the mean
      to the two ends. */
  lemma UpdateBounds(alpha: real, p: real, r: real, v: real, d: real, e: real)
    requires 0.0 < alpha <= 1.0 && 0.0 <= p && 0.0 <= r && -r <= d <= p
    requires 0.0 <= v <= p * r && e == alpha * d
    ensures 0.0 <= p - e && 0.0 <= r + e
    ensures 0.0 <= (1.0 - alpha) * (v + e * d) <= (p - e) * (r + e)
  {
    StepInRange(alpha, p, d, e);
    StepInRange(alpha, r, -d, -e);
    VarianceStep(alpha, v, d, e);
    GapSigns(alpha, p, r, d, v);
    BoundGap(alpha, p, r, d, v, e);
  }

  lemma GapSigns(alpha: real, p: real, r: real, d: real, v: real)
    requires 0.0 < alpha <= 1.0 && -r <= d <= p && v <= p * r
    ensures (1.0 - alpha) * (p * r - v) + alpha * ((p - d) * (r + d)) >= 0.0
  {
    Signs(1.0 - alpha, p * r - v);
    Signs(p - d, r + d);
    Signs(alpha, (p - d) * (r + d));
  }

  lemma VarianceStep(alpha: real, v: real, d: real, e: real)
    requires 0.0 < alpha <= 1.0 && 0.0 <= v && e == alpha * d
    ensures 0.0 <= (1.0 - alpha) * (v + e * d)
  {
    Squares(d);
    Signs(alpha, d * d);
    assert e * d == alpha * (d * d);
    Signs(1.0 - alpha, v + e * d);
  }

  /** A step of `alpha` towards a point inside the range stays inside it. */
  lemma StepInRange(alpha: real, p: real, d: real, e: real)
    requires 0.0 < alpha <= 1.0 && 0.0 <= p && d <= p && e == alpha * d
    ensures e <= p
  {
    Signs(1.0 - alpha, p);
    Signs(alpha, p - d);
    assert alpha * (p - d) == alpha * p - alpha * d;
  }

  lemma Signs(a: real, b: real)
    requires a >= 0.0 && b >= 0.0
    ensures a * b >= 0.0
  {
  }

  lemma Squares(d: real)
    ensures d * d >= 0.0
  {
    if d >= 0.0 { Signs(d, d); } else { Signs(-d, -d); }
  }

  /** The distance to the bound shrinks by the discount and grows by a non-negative term. */
  lemma BoundGap(alpha: real, p: real, r: real, d: real, v: real, e: real)
    requires e == alpha * d
    ensures (p - e) * (r + e) - (1.0 - alpha) * (v + e * d)
            == (1.0 - alpha) * (p * r - v) + alpha * ((p - d) * (r + d))
  {
    assert (p - e) * (r + e) == p * r + p * e - e * r - e * e;
    assert (p - d) * (r + d) == p * r + p * d - d * r - d * d;
    assert alpha * (p * d) == p * e && alpha * (d * r) == e * r && alpha * (d * d) == e * d && alpha * (e * d) == e * e;
    assert alpha * ((p - d) * (r + d)) == alpha * (p * r) + p * e - e * r - e * d;
    assert (1.0 - alpha) * (p * r - v) == p * r - alpha * (p * r) - v + alpha * v;
    assert (1.0 - alpha) * (v + e * d) == v + e * d - alpha * v - e * e;
  }

  lemma FirstFits(hi: real, lo: real, x: real, m: real, v: real)
    requires lo <= x <= hi && m == x && v == 0.0
    ensures lo <= m <= hi && 0.0 <= v <= (hi - m) * (m - lo)
  {
    Signs(hi - m, m - lo);
  }

  lemma BoundsFit(alpha: real, hi: real, lo: real, m: real, v: real, d: real, m': real, v': real)
    requires 0.0 < alpha <= 1.0 && lo <= m <= hi && lo <= m + d <= hi && 0.0 <= v <= (hi - m) * (m - lo)
    requires m' == m + alpha * d && v' == (1.0 - alpha) * (v + (alpha * d) * d)
    ensures lo <= m' <= hi && 0.0 <= v' <= (hi - m') * (m' - lo)
  {
    var p, r, e := hi - m, m - lo, alpha * d;
    UpdateBounds(alpha, p, r, v, d, e);
    assert hi - m' == p - e && m' - lo == r + e;
  }

  /** The mean is in range and the variance is non-negative and at most what the mean's position in
      the range allows. */
  ghost predicate Within(s: Stats, lo: real, hi: real) {
    lo <= s.mean <= hi && 0.0 <= s.variance <= (hi - s.mean) * (s.mean - lo)
  }

  lemma StatsWithin(alpha: real, m: real, v: real, x: real, lo: real, hi: real, m': real, v': real)
    requires 0.0 < alpha <= 1.0 && lo <= m <= hi && lo <= x <= hi && 0.0 <= v <= (hi - m) * (m - lo)
    requires m' == m + alpha * (x - m) && v' == (1.0 - alpha) * (v + (alpha * (x - m)) * (x - m))
    ensures lo <= m' <= hi && 0.0 <= v' <= (hi - m') * (m' - lo)
  {
    BoundsFit(alpha, hi, lo, m, v, x - m, m', v');
  }

  lemma FoldWithin(alpha: real, s: Stats, x: real, lo: real, hi: real)
    requires 0.0 < alpha <= 1.0 && Within(s, lo, hi) && lo <= x <= hi
    ensures Within(Fold(alpha, s, x), lo, hi)
  {
    StatsWithin(alpha, s.mean, s.variance, x, lo, hi, Fold(alpha, s, x).mean, Fold(alpha, s, x).variance);
  }

  /** Values in `[lo, hi]` keep the incremental statistics within bounds at every step. */
  lemma {:induction false} EwmaBounds(alpha: real, xs: seq<real>, lo: real, hi: real)
    requires 0.0 < alpha <= 1.0 && xs != []
    requires forall i :: 0 <= i < |xs| ==> lo <= xs[i] <= hi
    ensures Within(Ewma(alpha, xs), lo, hi)
  {
    if |xs| == 1 {
      FirstFits(hi, lo, xs[0], Ewma(alpha, xs).mean, 0.0);
    } else {
      EwmaBounds(alpha, xs[..|xs| - 1], lo, hi);
      FoldWithin(alpha, Ewma(alpha, xs[..|xs| - 1]), xs[|xs| - 1], lo, hi);
    }
  }

  // ---- The sample ring ----

  /** `RESERVOIR_SIZE`. */
  const RESERVOIR: nat := 256

  /** The slots after the observations `xs`: filled in order, then overwritten at `count % size`. */
  function Ring(size: nat, xs: seq<real>): (slots: seq<real>)
    requires size > 0
    ensures |slots| == if |xs| <= size then |xs| else size
  {
    if xs == [] then []
    else
      var before, x := Ring(size, xs[..|xs| - 1]), xs[|xs| - 1];
      if |before| < size then before + [x] else before[|xs| % size := x]
  }

  /** Index of the observation in slot `k` once the ring is full. The slot is overwritten by every later
      observation whose count is congruent to `k`, which for slot 0 first happens a whole turn late. */
  function SlotSource(size: nat, n: nat, k: nat): int
    requires 0 < size <= n && k < size
  {
    var newest := n - (n - k) % size;
    if newest > size then newest - 1 else k
  }

  /** The slot to be overwritten next was written `size - 1` counts ago. */
  lemma NextSlot(size: nat, n: nat, k: nat)
    requires 0 < size <= n && k < size
    ensures k == (n + 1) % size ==> (n - k) % size == size - 1 && (n + 1 - k) % size == 0
    ensures k != (n + 1) % size ==> (n + 1 - k) % size == (n - k) % size + 1
  {
    var q, r := (n - k) / size, (n - k) % size;
    DivMod(n - k, size);
    if r == size - 1 {
      assert (q + 1) * size == q * size + size;
      ModOf(n + 1, size, q + 1, k);
      ModOf(n + 1 - k, size, q + 1, 0);
    } else {
      ModOf(n + 1 - k, size, q, r + 1);
      if k == (n + 1) % size {
        DivMod(n + 1, size);
        ModOf(n + 1 - k, size, (n + 1) / size, 0);
      }
    }
  }

  /** A full ring is overwritten in one slot. */
  lemma {:induction false} RingStep(size: nat, xs: seq<real>)
    requires 0 < size < |xs|
    ensures |Ring(size, xs[..|xs| - 1])| == size && |xs| % size < size
    ensures Ring(size, xs) == Ring(size, xs[..|xs| - 1])[|xs| % size := xs[|xs| - 1]]
  {
    DivMod(|xs|, size);
  }

  /** One more observation changes the source of the slot it lands in, and of no other. */
  lemma SourceStep(size: nat, n: nat, k: nat)
    requires 0 < size <= n && k < size
    ensures SlotSource(size, n + 1, k) == if k == (n + 1) % size then n else SlotSource(size, n, k)
  {
    NextSlot(size, n, k);
  }

  lemma FirstSources(size: nat, k: nat)
    requires k < size
    ensures SlotSource(size, size, k) == k
  {
    if k == 0 { ModOf(size, size, 1, 0); } else { ModOf(size - k, size, 0, size - k); }
  }

  /** Every slot of a full ring holds the observation its count says. */
  lemma {:induction false} RingSlots(size: nat, xs: seq<real>, k: nat)
    requires 0 < size <= |xs| && k < size
    ensures 0 <= SlotSource(size, |xs|, k) < |xs|
    ensures Ring(size, xs)[k] == xs[SlotSource(size, |xs|, k)]
  {
    if |xs| == size {
      RingFills(size, xs);
      FirstSources(size, k);
    } else {
      RingSlots(size, xs[..|xs| - 1], k);
      SourceStep(size, |xs| - 1, k);
      RingStep(size, xs);
    }
  }

  lemma RingFills(size: nat, xs: seq<real>)
    requires 0 < size && |xs| <= size
    ensures Ring(size, xs) == xs
  {
    if xs != [] {
      RingFills(size, xs[..|xs| - 1]);
      assert xs == xs[..|xs| - 1] + [xs[|xs| - 1]];
    }
  }

  /** The contents of a full ring: the first value and the last `size - 1` while the count is below twice
      the size, the last `size` from then on. */
  function Survivors(size: nat, xs: seq<real>): seq<real>
    requires 0 < size <= |xs|
  {
    if |xs| < 2 * size then [xs[0]] + xs[|xs| - size + 1..] else xs[|xs| - size..]
  }

  /** What the ring holds after `n` observations: all of them while it fills; the first one and the last
      `size - 1` while the count is below twice the size; from then on exactly the last `size`. */
  lemma {:induction false} RingContents(size: nat, xs: seq<real>)
    requires 0 < size
    ensures |xs| <= size ==> Ring(size, xs) == xs
    ensures |xs| >= size ==> SameValues(Ring(size, xs), Survivors(size, xs))
  {
    if |xs| <= size {
      RingFills(size, xs);
      if |xs| == size {
        FullOnce(size, xs);
      }
    } else {
      RingContents(size, xs[..|xs| - 1]);
      ContentsStep(size, xs);
    }
  }

  /** When a full ring holds the most recent values: once it has been round twice, or when the first value happens to
      equal the one it has outlived. */
  lemma RecentIff(size: nat, xs: seq<real>)
    requires 0 < size <= |xs|
    ensures SameValues(Ring(size, xs), xs[|xs| - size..]) <==> |xs| >= 2 * size || xs[0] == xs[|xs| - size]
  {
    RingContents(size, xs);
    if |xs| < 2 * size {
      var head, tail := xs[|xs| - size], xs[|xs| - size + 1..];
      LastParts(size, xs);
      HeadsDiffer(xs[0], head, tail);
    }
  }

  lemma LastParts(size: nat, xs: seq<real>)
    requires 0 < size <= |xs|
    ensures xs[|xs| - size..] == [xs[|xs| - size]] + xs[|xs| - size + 1..]
  {
  }

  lemma HeadsDiffer(a: real, b: real, tail: seq<real>)
    ensures SameValues([a] + tail, [b] + tail) <==> a == b
  {
    assert multiset([a] + tail) == multiset{a} + multiset(tail);
    assert multiset([b] + tail) == multiset{b} + multiset(tail);
    if a != b {
      assert multiset([a] + tail)[a] == multiset(tail)[a] + 1;
      assert multiset([b] + tail)[a] == multiset(tail)[a];
    }
  }

  lemma {:induction false} ContentsStep(size: nat, xs: seq<real>)
    requires 0 < size < |xs| && SameValues(Ring(size, xs[..|xs| - 1]), Survivors(size, xs[..|xs| - 1]))
    ensures SameValues(Ring(size, xs), Survivors(size, xs))
  {
    var p := StepPlace(size, xs);
    StepAny(size, xs, Ring(size, xs[..|xs| - 1]), p);
  }

  /** Where the newest observation lands, and what it overwrites. */
  lemma {:induction false} StepPlace(size: nat, xs: seq<real>) returns (p: nat)
    requires 0 < size < |xs|
    ensures var before := Ring(size, xs[..|xs| - 1]);
            && p < |before| && before[p] == xs[Overwritten(size, |xs| - 1)]
            && Ring(size, xs) == before[p := xs[|xs| - 1]]
  {
    p := |xs| % size;
    OverwriteValue(size, xs[..|xs| - 1]);
    RingStep(size, xs);
  }

  ghost predicate SameValues(a: seq<real>, b: seq<real>) { multiset(a) == multiset(b) }

  lemma FrontSurvivors(size: nat, xs: seq<real>)
    requires 0 < size < |xs|
    ensures var front, n := xs[..|xs| - 1], |xs| - 1;
            Survivors(size, front) == if n < 2 * size then [xs[0]] + front[n - size + 1..] else front[n - size..]
  {
    assert xs[..|xs| - 1][0] == xs[0];
  }

  lemma FullOnce(size: nat, xs: seq<real>)
    requires 0 < size == |xs|
    ensures SameValues(xs, Survivors(size, xs))
  {
    assert xs == [xs[0]] + xs[1..];
    assert Survivors(size, xs) == xs;
  }

  lemma {:induction false} StepEarly(size: nat, xs: seq<real>, ring: seq<real>, p: nat)
    requires 0 < size < |xs| < 2 * size && p < |ring|
    requires SameValues(ring, Survivors(size, xs[..|xs| - 1])) && ring[p] == xs[|xs| - size]
    ensures SameValues(ring[p := xs[|xs| - 1]], Survivors(size, xs))
  {
    ShiftEarly(size, xs);
    Replace(ring, p, xs[|xs| - 1], [xs[0]], ring[p], xs[|xs| - size + 1..|xs| - 1],
            Survivors(size, xs[..|xs| - 1]), Survivors(size, xs));
  }

  lemma {:induction false} StepTurn(size: nat, xs: seq<real>, ring: seq<real>, p: nat)
    requires 0 < size && |xs| == 2 * size && p < |ring|
    requires SameValues(ring, Survivors(size, xs[..|xs| - 1])) && ring[p] == xs[0]
    ensures SameValues(ring[p := xs[|xs| - 1]], Survivors(size, xs))
  {
    ShiftTurn(size, xs);
    Replace(ring, p, xs[|xs| - 1], [], ring[p], xs[size..|xs| - 1],
            Survivors(size, xs[..|xs| - 1]), Survivors(size, xs));
  }

  lemma {:induction false} StepLate(size: nat, xs: seq<real>, ring: seq<real>, p: nat)
    requires 0 < size && 2 * size < |xs| && p < |ring|
    requires SameValues(ring, Survivors(size, xs[..|xs| - 1])) && ring[p] == xs[|xs| - size - 1]
    ensures SameValues(ring[p := xs[|xs| - 1]], Survivors(size, xs))
  {
    ShiftLate(size, xs);
    Replace(ring, p, xs[|xs| - 1], [], ring[p], xs[|xs| - size..|xs| - 1],
            Survivors(size, xs[..|xs| - 1]), Survivors(size, xs));
  }

  lemma {:induction false} StepAny(size: nat, xs: seq<real>, ring: seq<real>, p: nat)
    requires 0 < size < |xs| && p < |ring|
    requires SameValues(ring, Survivors(size, xs[..|xs| - 1])) && ring[p] == xs[Overwritten(size, |xs| - 1)]
    ensures SameValues(ring[p := xs[|xs| - 1]], Survivors(size, xs))
  {
    if |xs| < 2 * size {
      StepEarly(size, xs, ring, p);
    } else if |xs| == 2 * size {
      StepTurn(size, xs, ring, p);
    } else {
      StepLate(size, xs, ring, p);
    }
  }

  lemma Cut(xs: seq<real>, k: nat)
    requires k < |xs| - 1
    ensures xs[..|xs| - 1][k..] == [xs[k]] + xs[k + 1..|xs| - 1]
    ensures xs[k + 1..] == xs[k + 1..|xs| - 1] + [xs[|xs| - 1]]
  {
  }

  lemma {:induction false} ShiftEarly(size: nat, xs: seq<real>)
    requires 0 < size < |xs| < 2 * size
    ensures var n, b := |xs| - 1, xs[|xs| - size + 1..|xs| - 1];
            && Survivors(size, xs[..n]) == [xs[0]] + [xs[|xs| - size]] + b
            && Survivors(size, xs) == [xs[0]] + b + [xs[n]]
  {
    var n, k, b := |xs| - 1, |xs| - size, xs[|xs| - size + 1..|xs| - 1];
    FrontSurvivors(size, xs);
    assert xs[..n][k..] == [xs[k]] + b;
    assert xs[k + 1..] == b + [xs[n]];
    Regroup(xs[0], [xs[k]], b);
    Regroup(xs[0], b, [xs[n]]);
  }

  lemma Regroup(x: real, a: seq<real>, b: seq<real>)
    ensures [x] + (a + b) == [x] + a + b
  {
  }

  lemma ShiftTurn(size: nat, xs: seq<real>)
    requires 0 < size && |xs| == 2 * size
    ensures var n, b := |xs| - 1, xs[size..|xs| - 1];
            && Survivors(size, xs[..n]) == [] + [xs[0]] + b && Survivors(size, xs) == [] + b + [xs[n]]
  {
    FrontSurvivors(size, xs);
    Cut(xs, size - 1);
    assert xs[..|xs| - 1][size..] == xs[size..|xs| - 1];
  }

  lemma ShiftLate(size: nat, xs: seq<real>)
    requires 0 < size && 2 * size < |xs|
    ensures var n, b := |xs| - 1, xs[|xs| - size..|xs| - 1];
            && Survivors(size, xs[..n]) == [] + [xs[n - size]] + b && Survivors(size, xs) == [] + b + [xs[n]]
  {
    FrontSurvivors(size, xs);
    Cut(xs, |xs| - 1 - size);
  }

  /** Index of the value that the observation after `n` others overwrites. */
  function Overwritten(size: nat, n: nat): int {
    if n + 1 < 2 * size then n + 1 - size else if n + 1 == 2 * size then 0 else n - size
  }

  /** The value the next observation overwrites. */
  lemma OverwriteValue(size: nat, front: seq<real>)
    requires 0 < size <= |front|
    ensures var n := |front|;
            && 0 <= (n + 1) % size < size
            && Ring(size, front)[(n + 1) % size] == front[Overwritten(size, n)]
  {
    var n := |front|;
    var p := (n + 1) % size;
    DivMod(n + 1, size);
    NextSlot(size, n, p);
    RingSlots(size, front, p);
    if n + 1 < 2 * size {
      ModOf(n + 1, size, 1, n + 1 - size);
    } else if n + 1 == 2 * size {
      ModOf(n + 1, size, 2, 0);
    }
  }

  /** Overwriting a value with one that joins at the end. */
  lemma Replace(ring: seq<real>, p: nat, x: real, a: seq<real>, gone: real, b: seq<real>, was: seq<real>,
                now: seq<real>)
    requires p < |ring| && ring[p] == gone && SameValues(ring, was)
    requires was == a + [gone] + b && now == a + b + [x]
    ensures SameValues(ring[p := x], now)
  {
    assert multiset(was) == multiset(a) + multiset{gone} + multiset(b);
    assert multiset(now) == multiset(a) + multiset(b) + multiset{x};
    assert multiset(ring[p := x]) == multiset(ring) - multiset{gone} + multiset{x};
  }

  // ---- The classes ----

  /** One metric of one entity. `seen` is the ghost list of every value folded in. */
  class Baseline {
    const alpha: real
    const minObservations: nat
    var mean: real
    var variance: real
    var count: nat
    var lastValue: real
    var samples: seq<real>
    ghost var seen: seq<real>

    ghost predicate Valid()
      reads this
    {
      && count == |seen|
      && (seen == [] ==> mean == 0.0 && variance == 0.0)
      && (seen != [] ==> Stats(mean, variance) == Ewma(alpha, seen) && lastValue == seen[|seen| - 1])
      && samples == Ring(RESERVOIR, seen)
    }

    constructor (alpha: real, minObservations: nat)
      ensures Valid() && seen == [] && this.alpha == alpha && this.minObservations == minObservations
    {
      this.alpha, this.minObservations := alpha, minObservations;
      mean, variance, count, lastValue, samples, seen := 0.0, 0.0, 0, 0.0, [], [];
    }

    method Update(value: real)
      requires Valid()
      modifies this
      ensures Valid() && seen == old(seen) + [value]
    {
      lastValue := value;
      UpdateMoments(value);
      count := count + 1;
      UpdateSamples(value);
      seen := seen + [value];
    }

    /** The running mean and variance; `count` is still the number of earlier values. */
    method UpdateMoments(value: real)
      requires count == 0 <==> seen == []
      requires seen != [] ==> Stats(mean, variance) == Ewma(alpha, seen)
      modifies this`mean, this`variance
      ensures Stats(mean, variance) == Ewma(alpha, seen + [value])
    {
      assert (seen + [value])[..|seen|] == seen;
      if count == 0 {
        mean := value;
        variance := 0.0;
      } else {
        ghost var before := Stats(mean, variance);
        var delta := value - mean;
        var step := alpha * delta;
        mean := mean + step;
        variance := (1.0 - alpha) * (variance + step * delta);
        StepIsFold(alpha, before, value, Stats(mean, variance), delta, step);
      }
    }

    /** The sample ring; `count` already includes the new value. */
    method UpdateSamples(value: real)
      requires samples == Ring(RESERVOIR, seen) && count == |seen| + 1
      modifies this`samples
      ensures samples == Ring(256, seen + [value])
    {
      assert (seen + [value])[..|seen|] == seen;
      if |samples| < RESERVOIR {
        samples := samples + [value];
      } else {
        samples := samples[count % RESERVOIR := value];
      }
    }

    /** Compare first, then fold in: what is reported about a value is computed from the values before
        it only, and only once there are enough of them. */
    method Observe(value: real) returns (deviation: Option<Deviation>)
      requires Valid() && minObservations >= 1
      modifies this
      ensures Valid() && seen == old(seen) + [value]
      ensures deviation.Some? <==> |old(seen)| >= minObservations
      ensures deviation.Some? ==> deviation.value.observed == value && deviation.value.observations == |old(seen)|
      ensures deviation.Some? ==>
                Stats(deviation.value.mean, deviation.value.variance) == Batch(alpha, old(seen))
      ensures deviation.Some? ==> deviation.value.samples == Ring(256, old(seen))
    {
      if count >= minObservations {
        EwmaIsBatch(alpha, seen);
        deviation := Some(Deviation(value, mean, variance, samples, count));
      } else {
        deviation := None;
      }
      Update(value);
    }
  }

  /** What a warm baseline reports; the standard deviation, z-score and percentile are read off it. */
  datatype Deviation = Deviation(observed: real, mean: real, variance: real, samples: seq<real>, observations: nat)
}
