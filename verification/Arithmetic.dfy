/** Integer facts the resampler's phase arithmetic rests on, each proved once. */
module Arithmetic {

  type pos = x: int | x > 0 witness 1

  function Min(a: int, b: int): int { if a < b then a else b }

  function Max(a: int, b: int): int { if a < b then b else a }

  lemma MulMono(a: int, b: int, d: nat)
    requires a <= b
    ensures a * d <= b * d
  {
    assert (b - a) * d >= 0;
  }

  lemma Distribute(a: int, b: int, d: int)
    ensures (a + b) * d == a * d + b * d
    ensures (a - b) * d == a * d - b * d
  {
  }

  lemma DivMod(t: int, d: pos)
    ensures t == (t / d) * d + t % d && 0 <= t % d < d
  {
  }

  lemma DivModUnique(t: int, q: int, r: int, d: pos)
    requires t == q * d + r && 0 <= r < d
    ensures t / d == q && t % d == r
  {
    DivMod(t, d);
    if t / d > q {
      MulMono(q + 1, t / d, d);
      Distribute(q, 1, d);
    } else if t / d < q {
      MulMono(t / d + 1, q, d);
      Distribute(t / d, 1, d);
    }
  }

  // Position t, in units of 1/d of a sample, starts before sample n.
  lemma StartsBefore(t: int, n: int, d: pos)
    ensures t / d < n <==> t < n * d
  {
    DivMod(t, d);
    if t / d < n {
      MulMono(t / d + 1, n, d);
      Distribute(t / d, 1, d);
    } else {
      MulMono(n, t / d, d);
    }
  }

  lemma DivShift(t: int, c: int, d: pos)
    ensures (t - c * d) / d == t / d - c && (t - c * d) % d == t % d
  {
    DivMod(t, d);
    Distribute(t / d, c, d);
    DivModUnique(t - c * d, t / d - c, t % d, d);
  }

  lemma DivMono(a: int, b: int, d: pos)
    requires a <= b
    ensures a / d <= b / d
  {
    StartsBefore(a, b / d + 1, d);
    StartsBefore(b, b / d + 1, d);
  }

  // One carry step of a two-digit position: int_advance and frac_advance.
  lemma Carry(last: int, frac: int, num: pos, den: pos)
    requires 0 <= frac < den
    ensures var t := last * den + frac + num;
            var f := frac + num % den;
            && t / den == last + num / den + (if f >= den then 1 else 0)
            && t % den == (if f >= den then f - den else f)
  {
    var t := last * den + frac + num;
    var f := frac + num % den;
    DivMod(num, den);
    Distribute(last, num / den, den);
    Distribute(last + num / den, 1, den);
    if f >= den {
      DivModUnique(t, last + num / den + 1, f - den, den);
    } else {
      DivModUnique(t, last + num / den, f, den);
    }
  }
}
