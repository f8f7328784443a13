/**
 What the coefficients of the filter are worth: every output is a sum over its window, each
 sample weighed by the windowed sinc at its distance from the centre of the output. The direct
 table holds these weights; the interpolating kernel reads the sinc at four points around the
 distance and joins them by a cubic.
 */
module Coefficients {
  import opened Arithmetic
  import opened Polyphase
  import opened FilterDesign

  const ROUNDING: real := 0.00001

  // The value at u of the cubic with these coefficients.
  function Cubic(a: real, b: real, c: real, e: real, u: real): real {
    a + b * u + c * (u * u) + e * (u * u * u)
  }

  function Abs(x: real): real {
    if x < 0.0 then -x else x
  }

  /**
   The four weights interpolate: at the nodes -2, -1, 0 and 1 they sum to one, and their first
   three moments are those of the point -x, up to the rounding of the constants in them.
   */
  lemma CubicMoments(x: real)
    requires 0.0 <= x <= 1.0
    ensures var w := CubicCoef(x);
            && w.0 + w.1 + w.2 + w.3 == 1.0
            && 0.0 <= -2.0 * w.0 - w.1 + w.3 + x <= ROUNDING
            && -ROUNDING <= 4.0 * w.0 + w.1 + w.3 - x * x <= 0.0
            && 0.0 <= -8.0 * w.0 - w.1 + w.3 + x * x * x <= 3.0 * ROUNDING
  {
    UnitCube(x);
    var w := CubicCoef(x);
    var cube := x * x * x;
    assert -2.0 * w.0 - w.1 + w.3 + x == ROUNDING * (x - cube);
    assert 4.0 * w.0 + w.1 + w.3 - x * x == ROUNDING * (cube - x);
    assert -8.0 * w.0 - w.1 + w.3 + cube == 3.0 * ROUNDING * (x - cube);
  }

  lemma Product(a: real, b: real)
    requires a >= 0.0 && b >= 0.0
    ensures a * b >= 0.0
  {
  }

  lemma UnitCube(x: real)
    requires 0.0 <= x <= 1.0
    ensures 0.0 <= x - x * x * x <= 1.0
  {
    Product(1.0 - x, 1.0 + x);
    assert (1.0 - x) * (1.0 + x) == 1.0 - x * x;
    Product(x, 1.0 - x * x);
    assert x * (1.0 - x * x) == x - x * x * x;
    Product(x, x);
    Product(x, x * x);
    assert x * (x * x) == x * x * x;
  }

  lemma ScaleBound(a: real, m: real, bound: real)
    requires Abs(m) <= bound
    ensures Abs(a * m) <= Abs(a) * bound
  {
    Product(Abs(a), bound - m);
    Product(Abs(a), bound + m);
    assert Abs(a) * (bound - m) == Abs(a) * bound - Abs(a) * m;
    assert Abs(a) * (bound + m) == Abs(a) * bound + Abs(a) * m;
  }

  lemma Triangle(u: real, v: real, w: real, sum: real, bound: real)
    requires sum == u + v + w && Abs(u) + Abs(v) + Abs(w) <= bound
    ensures Abs(sum) <= bound
  {
  }

  /**
   Interpolation interpolates: of four samples of a cubic at the nodes -2, -1, 0 and 1 the weights
   make the cubic's value at -x, to within the rounding of the constants. A cubic runs through any
   four samples, so this says what the weights make of any table.
   */
  lemma WeighIsCubic(a: real, b: real, c: real, e: real, x: real)
    requires 0.0 <= x <= 1.0
    ensures var made := Weigh(CubicCoef(x), Cubic(a, b, c, e, -2.0), Cubic(a, b, c, e, -1.0),
                              Cubic(a, b, c, e, 0.0), Cubic(a, b, c, e, 1.0));
            Abs(made - Cubic(a, b, c, e, -x)) <= ROUNDING * (Abs(b) + Abs(c) + 3.0 * Abs(e))
  {
    hide CubicCoef, Cubic, Weigh;
    CubicMoments(x);
    var w := CubicCoef(x);
    var m1 := -2.0 * w.0 - w.1 + w.3 + x;
    var m2 := 4.0 * w.0 + w.1 + w.3 - x * x;
    var m3 := -8.0 * w.0 - w.1 + w.3 + x * x * x;
    var made := Weigh(w, Cubic(a, b, c, e, -2.0), Cubic(a, b, c, e, -1.0), Cubic(a, b, c, e, 0.0),
                      Cubic(a, b, c, e, 1.0));
    Moments(a, b, c, e, w, x);
    WithinRounding(b, c, e, m1, m2, m3, made - Cubic(a, b, c, e, -x));
  }

  lemma WithinRounding(b: real, c: real, e: real, m1: real, m2: real, m3: real, sum: real)
    requires Abs(m1) <= ROUNDING && Abs(m2) <= ROUNDING && Abs(m3) <= 3.0 * ROUNDING
    requires sum == b * m1 + c * m2 + e * m3
    ensures Abs(sum) <= ROUNDING * (Abs(b) + Abs(c) + 3.0 * Abs(e))
  {
    ScaleBound(b, m1, ROUNDING);
    ScaleBound(c, m2, ROUNDING);
    ScaleBound(e, m3, 3.0 * ROUNDING);
    hide Abs;
    Triangle(b * m1, c * m2, e * m3, sum, ROUNDING * (Abs(b) + Abs(c) + 3.0 * Abs(e)));
  }

  lemma Moments(a: real, b: real, c: real, e: real, w: (real, real, real, real), x: real)
    requires w.0 + w.1 + w.2 + w.3 == 1.0
    ensures Weigh(w, Cubic(a, b, c, e, -2.0), Cubic(a, b, c, e, -1.0), Cubic(a, b, c, e, 0.0), Cubic(a, b, c, e, 1.0))
            - Cubic(a, b, c, e, -x)
            == b * (-2.0 * w.0 - w.1 + w.3 + x) + c * (4.0 * w.0 + w.1 + w.3 - x * x)
               + e * (-8.0 * w.0 - w.1 + w.3 + x * x * x)
  {
    assert Cubic(a, b, c, e, -2.0) == a - 2.0 * b + 4.0 * c - 8.0 * e;
    assert Cubic(a, b, c, e, -1.0) == a - b + c - e;
    assert Cubic(a, b, c, e, 0.0) == a;
    assert Cubic(a, b, c, e, 1.0) == a + b + c + e;
    assert Cubic(a, b, c, e, -x) == a - b * x + c * (x * x) - e * (x * x * x);
    hide Cubic;
    assert a * (w.0 + w.1 + w.2 + w.3) == a;
  }

  // The step of the table and the fraction of a step make up the phase.
  lemma StepAndFraction(phase: nat, oversample: pos, den: pos)
    ensures 0.0 <= TableFraction(phase, oversample, den) < 1.0
    ensures TableOffset(phase, oversample, den) as real + TableFraction(phase, oversample, den)
            == oversample as real * (phase as real / den as real)
  {
    var product := phase * oversample;
    DivMod(product, den);
    var d := den as real;
    var q, r := (product / den) as real, (product % den) as real;
    assert product as real == q * d + r;
    assert product as real == phase as real * oversample as real;
    RatioSum(q, r, d, phase as real, oversample as real);
  }

  lemma FractionBelowOne(r: real, d: real)
    requires 0.0 <= r < d
    ensures 0.0 <= r / d < 1.0
  {
  }

  lemma RatioSum(q: real, r: real, d: real, p: real, o: real)
    requires d > 0.0 && 0.0 <= r < d && q * d + r == p * o
    ensures 0.0 <= r / d < 1.0 && q + r / d == o * (p / d)
  {
    var u, v := r / d, p / d;
    Cancel(r, d, u);
    assert u * d == r && v * d == p;
    assert (q + u - o * v) * d == 0.0;
    FractionBelowOne(r, d);
  }

  // How far sample s lies from the centre of the output at position t.
  function Distance(taps: int, den: pos, t: int, s: int): real {
    s as real - (t as real / den as real + (taps / 2 - 1) as real)
  }

  lemma DistanceInWindow(taps: int, den: pos, t: int, j: int)
    ensures Distance(taps, den, t, t / den + j) == (j - taps / 2 + 1) as real - (t % den) as real / den as real
  {
    DivMod(t, den);
    var d := den as real;
    var q, r := (t / den) as real, (t % den) as real;
    assert t as real == q * d + r;
    var u, v := t as real / d, r / d;
    assert u * d == t as real && v * d == r;
    assert (u - q - v) * d == 0.0;
  }

  // The window is balanced about the centre: every sample in it lies within half a filter.
  lemma WindowIsCentred(taps: pos, den: pos, t: int, j: nat)
    requires j < taps && taps % 2 == 0
    ensures Abs(Distance(taps, den, t, t / den + j)) <= (taps / 2) as real
  {
    DistanceInWindow(taps, den, t, j);
    DivMod(t, den);
    var v := (t % den) as real / den as real;
    assert v * den as real == (t % den) as real;
    assert 0.0 <= v < 1.0;
  }

  // The weight of sample j of a window at this phase.
  function Coef(f: Filter, phase: int, j: int): real {
    match f.kernel
    case Direct(table) => At(table, phase * f.taps + j)
    case Interpolated(table, oversample) =>
      var node := 4 + (j + 1) * oversample - TableOffset(phase, oversample, f.den);
      Weigh(CubicCoef(TableFraction(phase, oversample, f.den)),
            At(table, node - 2), At(table, node - 1), At(table, node), At(table, node + 1))
    case Silent => 0.0
  }

  // The first n samples of a window, each with its weight.
  function Weighted(f: Filter, phase: int, x: seq<real>, p: int, n: nat): real {
    if n == 0 then 0.0 else Weighted(f, phase, x, p, n - 1) + Coef(f, phase, n - 1) * At(x, p + (n - 1))
  }

  // Every output, whatever the kernel, is the sum over its window with these weights.
  lemma TapIsWeighted(f: Filter, phase: int, x: seq<real>, p: int)
    ensures Tap(f, phase, x, p) == Weighted(f, phase, x, p, f.taps)
  {
    match f.kernel
    case Direct(table) => DirectWeighted(f, table, phase, x, p, f.taps);
    case Interpolated(table, oversample) => InterpolatedWeighted(f, table, oversample, phase, x, p, f.taps);
    case Silent => SilentWeighted(f, phase, x, p, f.taps);
  }

  lemma {:induction false} DirectWeighted(f: Filter, table: seq<real>, phase: int, x: seq<real>, p: int, n: nat)
    requires f.kernel == Direct(table)
    ensures Dot(table, phase * f.taps, 1, x, p, n) == Weighted(f, phase, x, p, n)
  {
    if n > 0 { DirectWeighted(f, table, phase, x, p, n - 1); }
  }

  lemma {:induction false} SilentWeighted(f: Filter, phase: int, x: seq<real>, p: int, n: nat)
    requires f.kernel == Silent
    ensures Weighted(f, phase, x, p, n) == 0.0
  {
    if n > 0 { SilentWeighted(f, phase, x, p, n - 1); }
  }

  // The four sums over the first n samples, weighed.
  function WeighedDots(w: (real, real, real, real), c: seq<real>, i: int, d: pos, x: seq<real>, p: int, n: nat): real {
    Weigh(w, Dot(c, i, d, x, p, n), Dot(c, i + 1, d, x, p, n), Dot(c, i + 2, d, x, p, n), Dot(c, i + 3, d, x, p, n))
  }

  lemma WeighedStep(w: (real, real, real, real), c: seq<real>, i: int, d: pos, x: seq<real>, p: int, n: nat, node: int)
    requires node - 2 == i + n * d
    ensures WeighedDots(w, c, i, d, x, p, n + 1)
            == WeighedDots(w, c, i, d, x, p, n)
               + Weigh(w, At(c, node - 2), At(c, node - 1), At(c, node), At(c, node + 1)) * At(x, p + n)
  {
    hide Weigh, At, Dot;
    DotMore(c, i, d, x, p, n, node - 2);
    DotMore(c, i + 1, d, x, p, n, node - 1);
    DotMore(c, i + 2, d, x, p, n, node);
    DotMore(c, i + 3, d, x, p, n, node + 1);
    WeighMore(w, Dot(c, i, d, x, p, n), Dot(c, i + 1, d, x, p, n), Dot(c, i + 2, d, x, p, n), Dot(c, i + 3, d, x, p, n),
              At(c, node - 2), At(c, node - 1), At(c, node), At(c, node + 1), At(x, p + n),
              Dot(c, i, d, x, p, n + 1), Dot(c, i + 1, d, x, p, n + 1), Dot(c, i + 2, d, x, p, n + 1),
              Dot(c, i + 3, d, x, p, n + 1));
  }

  lemma {:induction false} InterpolatedWeighted(f: Filter, table: seq<real>, oversample: pos, phase: int, x: seq<real>,
                                                p: int, n: nat)
    requires f.kernel == Interpolated(table, oversample)
    ensures var base := 4 + oversample - TableOffset(phase, oversample, f.den) - 2;
            WeighedDots(CubicCoef(TableFraction(phase, oversample, f.den)), table, base, oversample, x, p, n)
            == Weighted(f, phase, x, p, n)
  {
    hide CubicCoef, TableOffset, TableFraction, Weigh, At, WeighedDots;
    var base := 4 + oversample - TableOffset(phase, oversample, f.den) - 2;
    var w := CubicCoef(TableFraction(phase, oversample, f.den));
    if n > 0 {
      InterpolatedWeighted(f, table, oversample, phase, x, p, n - 1);
      Distribute(n - 1, 1, oversample);
      WeighedStep(w, table, base, oversample, x, p, n - 1, 4 + n * oversample - TableOffset(phase, oversample, f.den));
    } else {
      WeighedNone(w, table, base, oversample, x, p);
    }
  }

  lemma WeighedNone(w: (real, real, real, real), c: seq<real>, i: int, d: pos, x: seq<real>, p: int)
    ensures WeighedDots(w, c, i, d, x, p, 0) == 0.0
  {
  }

  lemma DotMore(c: seq<real>, i: int, d: pos, x: seq<real>, p: int, n: nat, k: int)
    requires k == i + n * d
    ensures Dot(c, i, d, x, p, n + 1) == Dot(c, i, d, x, p, n) + At(c, k) * At(x, p + n)
  {
  }

  lemma WeighMore(w: (real, real, real, real), a: real, b: real, c: real, d: real,
                  a': real, b': real, c': real, d': real, x: real, a1: real, b1: real, c1: real, d1: real)
    requires a1 == a + a' * x && b1 == b + b' * x && c1 == c + c' * x && d1 == d + d' * x
    ensures Weigh(w, a1, b1, c1, d1) == Weigh(w, a, b, c, d) + Weigh(w, a', b', c', d') * x
  {
  }

  // The weights of the direct table, phase and window put together.
  lemma DirectCoef(f: Filter, sinc: Sinc, cutoff: real, quality: int, t: int, j: nat)
    requires f.kernel.Direct? && IsDirectTable(f.kernel.table, sinc, cutoff, f.taps, quality, f.den) && j < f.taps
    ensures Coef(f, t % f.den, j) == sinc(cutoff, Distance(f.taps, f.den, t, t / f.den + j), f.taps, quality)
  {
    DivMod(t, f.den);
    DistanceInWindow(f.taps, f.den, t, j);
    assert At(f.kernel.table, t % f.den * f.taps + j)
           == DirectEntry(sinc, cutoff, f.taps, quality, f.den, t % f.den, j);
    hide Distance, IsDirectTable;
  }

  // What is read for sample j by the interpolating kernel: the sinc at four points around its
  // distance, a table step apart, the third one a fraction of a step past it.
  lemma InterpolatedNodes(f: Filter, sinc: Sinc, cutoff: real, quality: int, t: int, j: nat, k: nat)
    requires f.kernel.Interpolated? && j < f.taps && k < 4
    requires IsInterpolatedTable(f.kernel.table, sinc, cutoff, f.taps, quality, f.kernel.oversample)
    ensures var oversample := f.kernel.oversample;
            var node := 4 + (j + 1) * oversample - TableOffset(t % f.den, oversample, f.den);
            var point := (k - 2) as real + TableFraction(t % f.den, oversample, f.den);
            At(f.kernel.table, node - 2 + k)
            == sinc(cutoff, Distance(f.taps, f.den, t, t / f.den + j) + point / oversample as real, f.taps, quality)
  {
    hide Distance, TableOffset, TableFraction, IsInterpolatedTable;
    var oversample, phase := f.kernel.oversample, t % f.den;
    DivMod(t, f.den);
    DistanceInWindow(f.taps, f.den, t, j);
    StepAndFraction(phase, oversample, f.den);
    NodeEntry(f.kernel.table, sinc, cutoff, f.taps, quality, oversample, f.den, phase, j, k);
    SameArgument(j, f.taps, oversample, TableOffset(phase, oversample, f.den), k,
                 TableFraction(phase, oversample, f.den), phase as real / f.den as real);
  }

  lemma NodeEntry(table: seq<real>, sinc: Sinc, cutoff: real, taps: pos, quality: int, oversample: pos, den: pos,
                  phase: nat, j: nat, k: nat)
    requires phase < den && j < taps && k < 4 && IsInterpolatedTable(table, sinc, cutoff, taps, quality, oversample)
    ensures var node := 4 + (j + 1) * oversample - TableOffset(phase, oversample, den);
            At(table, node - 2 + k)
            == sinc(cutoff, (node - 2 + k - 4) as real / oversample as real - (taps / 2) as real, taps, quality)
  {
    hide TableOffset;
    InterpolationReadsTable(phase, oversample, den, taps, j, k);
    Distribute(j, 1, oversample);
    var node := 4 + (j + 1) * oversample - TableOffset(phase, oversample, den);
    assert At(table, node - 2 + k) == InterpolatedEntry(sinc, cutoff, taps, quality, oversample, node - 2 + k);
  }

  lemma SameArgument(j: int, taps: int, oversample: pos, offset: int, k: int, fraction: real, ratio: real)
    requires offset as real + fraction == oversample as real * ratio
    ensures var node := 4 + (j + 1) * oversample - offset;
            (node - 2 + k - 4) as real / oversample as real - (taps / 2) as real
            == (j - taps / 2 + 1) as real - ratio + ((k - 2) as real + fraction) / oversample as real
  {
    var o := oversample as real;
    var a := (4 + (j + 1) * oversample - offset - 2 + k - 4) as real;
    assert ((j + 1) * oversample) as real == (j + 1) as real * o;
    assert a == (j + 1) as real * o - offset as real + (k - 2) as real;
    var left, right := a / o, ((k - 2) as real + fraction) / o;
    assert left * o == a && right * o == (k - 2) as real + fraction;
    assert (left - right - (j + 1) as real + ratio) * o == 0.0;
  }

  // The windowed-sinc sum over the first n samples of the window of the output at position t.
  function SincSum(f: Filter, sinc: Sinc, cutoff: real, quality: int, x: seq<real>, t: int, n: nat): real {
    if n == 0 then 0.0
    else
      var s := t / f.den + (n - 1);
      SincSum(f, sinc, cutoff, quality, x, t, n - 1)
      + sinc(cutoff, Distance(f.taps, f.den, t, s), f.taps, quality) * At(x, s)
  }

  /**
   An output of the direct kernel is the convolution of the input with the windowed sinc: each
   sample of the window weighed by the sinc at its distance from the output's centre, which lies
   half a filter into the window.
   */
  lemma DirectIsConvolution(f: Filter, sinc: Sinc, cutoff: real, quality: int, x: seq<real>, t: int)
    requires f.kernel.Direct? && IsDirectTable(f.kernel.table, sinc, cutoff, f.taps, quality, f.den)
    ensures Y(f, x, t) == SincSum(f, sinc, cutoff, quality, x, t, f.taps)
  {
    TapIsWeighted(f, t % f.den, x, t / f.den);
    WeightedIsSinc(f, sinc, cutoff, quality, x, t, f.taps);
    hide Weighted, SincSum, Tap, IsDirectTable;
  }

  lemma {:induction false} WeightedIsSinc(f: Filter, sinc: Sinc, cutoff: real, quality: int, x: seq<real>, t: int,
                                          n: nat)
    requires f.kernel.Direct? && IsDirectTable(f.kernel.table, sinc, cutoff, f.taps, quality, f.den) && n <= f.taps
    ensures Weighted(f, t % f.den, x, t / f.den, n) == SincSum(f, sinc, cutoff, quality, x, t, n)
  {
    hide Distance, IsDirectTable, Coef;
    if n > 0 {
      WeightedIsSinc(f, sinc, cutoff, quality, x, t, n - 1);
      DirectCoef(f, sinc, cutoff, quality, t, n - 1);
    }
  }

  // The table around this weight is sampled from this cubic, counted in table steps from the
  // third of the four entries read.
  ghost predicate SampledFrom(f: Filter, phase: int, j: int, a: real, b: real, c: real, e: real)
    requires f.kernel.Interpolated?
  {
    var node := 4 + (j + 1) * f.kernel.oversample - TableOffset(phase, f.kernel.oversample, f.den);
    var table := f.kernel.table;
    && At(table, node - 2) == Cubic(a, b, c, e, -2.0)
    && At(table, node - 1) == Cubic(a, b, c, e, -1.0)
    && At(table, node) == Cubic(a, b, c, e, 0.0)
    && At(table, node + 1) == Cubic(a, b, c, e, 1.0)
  }

  /**
   The weight the interpolating kernel gives a sample, at every phase, those between table steps
   included: the value at the phase of the cubic through the four entries, to within the rounding
   of the constants.
   */
  lemma InterpolatedCoef(f: Filter, phase: nat, j: nat, a: real, b: real, c: real, e: real)
    requires f.kernel.Interpolated? && SampledFrom(f, phase, j, a, b, c, e)
    ensures var x := TableFraction(phase, f.kernel.oversample, f.den);
            Abs(Coef(f, phase, j) - Cubic(a, b, c, e, -x)) <= ROUNDING * (Abs(b) + Abs(c) + 3.0 * Abs(e))
  {
    hide CubicCoef, TableOffset, TableFraction, Cubic, Weigh, At, Abs;
    StepAndFraction(phase, f.kernel.oversample, f.den);
    WeighIsCubic(a, b, c, e, TableFraction(phase, f.kernel.oversample, f.den));
  }
}
