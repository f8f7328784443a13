/**
 The ideal resampler: one polyphase filter applied to one buffer of samples.

 A position is an integer t that counts 1/den of an input sample, so it starts at
 sample t / den with phase t % den. Consecutive outputs are num apart.
 */
module Polyphase {
  import opened Arithmetic

  // The coefficient table the filter reads, and how it reads it.
  datatype Kernel =
    | Direct(table: seq<real>)
    | Interpolated(table: seq<real>, oversample: pos)
    | Silent

  datatype Filter = Filter(taps: pos, num: pos, den: pos, kernel: Kernel)

  function At(s: seq<real>, k: int): real {
    if 0 <= k < |s| then s[k] else 0.0
  }

  // The sum over j < n of c[i + j * d] * x[p + j].
  function Dot(c: seq<real>, i: int, d: int, x: seq<real>, p: int, n: nat): real {
    if n == 0 then 0.0
    else Dot(c, i, d, x, p, n - 1) + At(c, i + (n - 1) * d) * At(x, p + (n - 1))
  }

  // The four interpolation weights for a fraction of a table step.
  function CubicCoef(frac: real): (real, real, real, real) {
    var w0 := -0.16667 * frac + 0.16667 * frac * frac * frac;
    var w1 := frac + 0.5 * frac * frac - 0.5 * frac * frac * frac;
    var w3 := -0.33333 * frac + 0.5 * frac * frac - 0.16667 * frac * frac * frac;
    (w0, w1, 1.0 - w0 - w1 - w3, w3)
  }

  function Weigh(w: (real, real, real, real), a: real, b: real, c: real, d: real): real {
    w.0 * a + w.1 * b + w.2 * c + w.3 * d
  }

  function TableOffset(phase: int, oversample: pos, den: pos): int {
    phase * oversample / den
  }

  function TableFraction(phase: int, oversample: pos, den: pos): real {
    (phase * oversample % den) as real / den as real
  }

  // One output: the filter at `phase` over the window of x that starts at p.
  function Tap(f: Filter, phase: int, x: seq<real>, p: int): real {
    match f.kernel
    case Direct(table) => Dot(table, phase * f.taps, 1, x, p, f.taps)
    case Interpolated(table, oversample) =>
      var base := 4 + oversample - TableOffset(phase, oversample, f.den) - 2;
      var w := CubicCoef(TableFraction(phase, oversample, f.den));
      Weigh(w, Dot(table, base, oversample, x, p, f.taps), Dot(table, base + 1, oversample, x, p, f.taps),
            Dot(table, base + 2, oversample, x, p, f.taps), Dot(table, base + 3, oversample, x, p, f.taps))
    case Silent => 0.0
  }

  // The output whose window starts at position t of x.
  function Y(f: Filter, x: seq<real>, t: int): real {
    Tap(f, t % f.den, x, t / f.den)
  }

  // The n outputs from position t on.
  function Outputs(f: Filter, x: seq<real>, t: int, n: nat): (ys: seq<real>)
    ensures |ys| == n
  {
    seq(n, k requires 0 <= k < n => Y(f, x, t + k * f.num))
  }

  // How many outputs from position t on start before sample n.
  function Avail(f: Filter, t: int, n: int): nat {
    if t >= n * f.den then 0 else (n * f.den - t + f.num - 1) / f.num
  }

  // Number of outputs made with room for `room`.
  function Made(f: Filter, t: int, n: int, room: nat): nat {
    Min(room, Avail(f, t, n))
  }

  lemma AvailExact(f: Filter, t: int, n: int, k: nat)
    ensures k < Avail(f, t, n) <==> t + k * f.num < n * f.den
  {
    var gap := n * f.den - t;
    if gap > 0 {
      var a := (gap + f.num - 1) / f.num;
      StartsBefore(gap + f.num - 1, k + 1, f.num);
      Distribute(k, 1, f.num);
    } else {
      MulMono(0, k, f.num);
    }
  }

  // Avail is the one number that separates the outputs that start before n from the rest.
  lemma AvailUnique(f: Filter, t: int, n: int, m: nat)
    requires t + m * f.num >= n * f.den
    requires m > 0 ==> t + (m - 1) * f.num < n * f.den
    ensures Avail(f, t, n) == m
  {
    AvailExact(f, t, n, m);
    if m > 0 { AvailExact(f, t, n, m - 1); }
  }

  lemma AvailAdvance(f: Filter, t: int, n: int, m: nat, c: int)
    requires m <= Avail(f, t, n)
    ensures Avail(f, t + m * f.num - c * f.den, n - c) == Avail(f, t, n) - m
  {
    var a := Avail(f, t, n);
    AvailExact(f, t, n, a);
    Distribute(a, m, f.num);
    Distribute(n, c, f.den);
    if a > m {
      AvailExact(f, t, n, a - 1);
      Distribute(a - 1, m, f.num);
    }
    var t' := t + m * f.num - c * f.den;
    if a == m {
      assert t' >= (n - c) * f.den;
    } else {
      assert t' + (a - m) * f.num >= (n - c) * f.den;
      assert t' + (a - m - 1) * f.num < (n - c) * f.den;
      AvailUnique(f, t', n - c, a - m);
    }
  }

  lemma AvailMono(f: Filter, t: int, n: int, n': int)
    requires n <= n'
    ensures Avail(f, t, n) <= Avail(f, t, n')
  {
    var a := Avail(f, t, n);
    if a > 0 {
      AvailExact(f, t, n, a - 1);
      MulMono(n, n', f.den);
      AvailExact(f, t, n', a - 1);
    }
  }

  // n samples of x from p on are those of x' from p' on.
  ghost predicate SameWindow(x: seq<real>, p: int, x': seq<real>, p': int, n: int) {
    forall k :: p <= k < p + n ==> At(x, k) == At(x', k - p + p')
  }

  lemma {:induction false} DotLocal(c: seq<real>, i: int, d: int, x: seq<real>, p: int, x': seq<real>, p': int, n: nat)
    requires SameWindow(x, p, x', p', n)
    ensures Dot(c, i, d, x, p, n) == Dot(c, i, d, x', p', n)
  {
    if n == 0 {
    } else {
      DotLocal(c, i, d, x, p, x', p', n - 1);
      assert At(x, p + (n - 1)) == At(x', p + (n - 1) - p + p');
    }
  }

  // An output depends on nothing but its window.
  lemma TapLocal(f: Filter, phase: int, x: seq<real>, p: int, x': seq<real>, p': int)
    requires SameWindow(x, p, x', p', f.taps)
    ensures Tap(f, phase, x, p) == Tap(f, phase, x', p')
  {
    hide CubicCoef, TableOffset, TableFraction, Dot, Weigh;
    match f.kernel
    case Direct(table) => DotLocal(table, phase * f.taps, 1, x, p, x', p', f.taps);
    case Interpolated(table, oversample) =>
      var base := 4 + oversample - TableOffset(phase, oversample, f.den) - 2;
      DotLocal(table, base, oversample, x, p, x', p', f.taps);
      DotLocal(table, base + 1, oversample, x, p, x', p', f.taps);
      DotLocal(table, base + 2, oversample, x, p, x', p', f.taps);
      DotLocal(table, base + 3, oversample, x, p, x', p', f.taps);
    case Silent =>
  }

  // Reading through a slice [c..e] of x at the shifted position gives the same output.
  lemma YSlice(f: Filter, x: seq<real>, c: nat, e: nat, t: int)
    requires c <= e <= |x|
    requires 0 <= t && t / f.den + f.taps <= e - c
    ensures Y(f, x[c..e], t) == Y(f, x, t + c * f.den)
  {
    var p := t / f.den;
    var back: int := 0 - c;
    DivShift(t, back, f.den);
    assert t - back * f.den == t + c * f.den;
    StartsBefore(t, 0, f.den);
    TapLocal(f, t % f.den, x[c..e], p, x, p + c);
  }

  // The same for a run of outputs, all of which start early enough to fit the slice.
  lemma OutputsSlice(f: Filter, x: seq<real>, c: nat, e: nat, t: int, n: nat)
    requires c + f.taps <= e + 1 && e <= |x| && 0 <= t
    requires n <= Avail(f, t, e - c - (f.taps - 1))
    ensures Outputs(f, x[c..e], t, n) == Outputs(f, x, t + c * f.den, n)
  {
    forall k | 0 <= k < n
      ensures Y(f, x[c..e], t + k * f.num) == Y(f, x, t + c * f.den + k * f.num)
    {
      AvailExact(f, t, e - c - (f.taps - 1), k);
      MulMono(0, k, f.num);
      StartsBefore(t + k * f.num, e - c - (f.taps - 1), f.den);
      YSlice(f, x, c, e, t + k * f.num);
    }
  }

  lemma OutputsConcat(f: Filter, x: seq<real>, t: int, n: nat, m: nat)
    ensures Outputs(f, x, t, n) + Outputs(f, x, t + n * f.num, m) == Outputs(f, x, t, n + m)
  {
    forall k | 0 <= k < m
      ensures t + n * f.num + k * f.num == t + (n + k) * f.num
    {
      Distribute(n, k, f.num);
    }
  }
}
