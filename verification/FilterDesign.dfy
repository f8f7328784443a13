/**
 How the resampler chooses its filter: the quality table, the length and oversampling of the
 filter, the two coefficient tables and the reduction of the rates to lowest terms.
 */
module FilterDesign {
  import opened Arithmetic
  import opened Polyphase

  datatype Quality = Quality(length: pos, oversample: pos, downBandwidth: real, upBandwidth: real)

  function QualityMap(quality: int): (q: Quality)
    requires 0 <= quality <= 10
    ensures q.length >= 8 && q.length % 8 == 0
  {
    if quality == 0 then Quality(8, 4, 0.830, 0.860)
    else if quality == 1 then Quality(16, 4, 0.850, 0.880)
    else if quality == 2 then Quality(32, 4, 0.882, 0.910)
    else if quality == 3 then Quality(48, 8, 0.895, 0.917)
    else if quality == 4 then Quality(64, 8, 0.921, 0.940)
    else if quality == 5 then Quality(80, 16, 0.922, 0.940)
    else if quality == 6 then Quality(96, 16, 0.940, 0.945)
    else if quality == 7 then Quality(128, 16, 0.950, 0.950)
    else if quality == 8 then Quality(160, 16, 0.960, 0.960)
    else if quality == 9 then Quality(192, 32, 0.968, 0.968)
    else Quality(256, 32, 0.975, 0.975)
  }

  // The largest number of samples whose size in bytes fits an int.
  const MAX_SAMPLES: pos := 536870911

  lemma StretchedLength(base: pos, num: pos, den: pos)
    requires num > den
    ensures base * num / den >= base
  {
    MulMono(den, num, base);
    DivMono(base * den, base * num, den);
    DivModUnique(base * den, base, 0, den);
  }

  function RoundUpToEight(n: pos): (r: int)
    ensures r % 8 == 0 && n <= r < n + 8
  {
    (n - 1) / 8 * 8 + 8
  }

  function DesignLength(quality: int, num: pos, den: pos): (length: int)
    requires 0 <= quality <= 10
    ensures length >= 8 && length % 8 == 0
  {
    var base := QualityMap(quality).length;
    if num > den then
      StretchedLength(base, num, den);
      RoundUpToEight(base * num / den)
    else base
  }

  function HalveIf(oversample: nat, halve: bool): nat {
    if halve then oversample / 2 else oversample
  }

  function DesignOversample(quality: int, num: pos, den: pos): pos
    requires 0 <= quality <= 10
  {
    var base := QualityMap(quality).oversample;
    if num > den then
      var o := HalveIf(HalveIf(HalveIf(HalveIf(base, 2 * den < num), 4 * den < num), 8 * den < num), 16 * den < num);
      if o < 1 then 1 else o
    else base
  }

  function DesignCutoff(quality: int, num: pos, den: pos): real
    requires 0 <= quality <= 10
  {
    if num > den then QualityMap(quality).downBandwidth * den as real / num as real
    else QualityMap(quality).upBandwidth
  }

  predicate UseDirect(length: int, oversample: pos, den: pos) {
    length * den <= length * oversample + 8 && MAX_SAMPLES / den >= length
  }

  // The length of the table for the kernel that takes less memory.
  function TableLength(length: pos, oversample: pos, den: pos): int {
    if UseDirect(length, oversample, den) then length * den else length * oversample + 8
  }

  // The table can be had: its size is in range, and it is there or can be allocated.
  predicate TableAffordable(length: pos, oversample: pos, den: pos, held: nat, allocOk: bool) {
    && (UseDirect(length, oversample, den) || length <= (MAX_SAMPLES - 8) / oversample)
    && (TableLength(length, oversample, den) <= held || allocOk)
  }

  // So can memory for `needed` samples of every channel.
  predicate MemoryAffordable(needed: int, channels: pos, held: nat, allocOk: bool) {
    needed <= held || (allocOk && needed <= MAX_SAMPLES / channels)
  }

  // The filter for a quality and two rates can be had.
  predicate Affordable(quality: int, num: pos, den: pos, channels: pos, buffer: nat, table: nat, memory: nat,
                       tableOk: bool, memoryOk: bool)
    requires 0 <= quality <= 10
  {
    && TableAffordable(DesignLength(quality, num, den), DesignOversample(quality, num, den), den, table, tableOk)
    && MemoryAffordable(DesignLength(quality, num, den) - 1 + buffer, channels, memory, memoryOk)
  }

  // An int holds the bytes of so many 4-byte samples, and of no more.
  lemma MaxSamplesFit()
    ensures 4 * MAX_SAMPLES <= 0x7FFF_FFFF < 4 * (MAX_SAMPLES + 1)
  {
  }

  // The chosen table is never the longer one, unless the shorter is out of range.
  lemma ShortestTable(length: pos, oversample: pos, den: pos)
    ensures TableLength(length, oversample, den) <= length * oversample + 8
    ensures length * den <= MAX_SAMPLES ==> TableLength(length, oversample, den) <= length * den
    ensures UseDirect(length, oversample, den) ==> length * den <= MAX_SAMPLES
  {
    StartsBefore(MAX_SAMPLES, length, den);
  }

  // The table by columns.
  lemma QualityColumns()
    ensures seq(11, q requires 0 <= q <= 10 => QualityMap(q).length) == [8, 16, 32, 48, 64, 80, 96, 128, 160, 192, 256]
    ensures seq(11, q requires 0 <= q <= 10 => QualityMap(q).oversample) == [4, 4, 4, 8, 8, 16, 16, 16, 16, 32, 32]
    ensures seq(11, q requires 0 <= q <= 10 => QualityMap(q).downBandwidth)
            == [0.830, 0.850, 0.882, 0.895, 0.921, 0.922, 0.940, 0.950, 0.960, 0.968, 0.975]
    ensures seq(11, q requires 0 <= q <= 10 => QualityMap(q).upBandwidth)
            == [0.860, 0.880, 0.910, 0.917, 0.940, 0.940, 0.945, 0.950, 0.960, 0.968, 0.975]
  {
  }

  // Better quality never has a shorter filter, a coarser table or a narrower band, and the bands
  // lie inside that of the input.
  lemma QualityRises(quality: int, better: int)
    requires 0 <= quality <= better <= 10
    ensures var q, r := QualityMap(quality), QualityMap(better);
            && q.length <= r.length && q.oversample <= r.oversample
            && 0.0 < q.downBandwidth <= q.upBandwidth < 1.0
            && q.downBandwidth <= r.downBandwidth && q.upBandwidth <= r.upBandwidth
  {
  }

  function PowerOfTwo(h: nat): pos {
    if h == 0 then 1 else 2 * PowerOfTwo(h - 1)
  }

  // The quality's oversampling halved once for each of the ratios 2, 4, 8 and 16 that the rates
  // exceed, and at least one.
  ghost predicate HalvedForRatio(oversample: int, base: int, num: pos, den: pos) {
    exists h: nat :: h <= 4 && HalvedTimes(oversample, base, num, den, h)
  }

  predicate HalvedTimes(oversample: int, base: int, num: pos, den: pos, h: nat) {
    && oversample == Max(1, base / PowerOfTwo(h))
    && (h > 0 ==> PowerOfTwo(h) * den < num)
    && (h < 4 ==> num <= PowerOfTwo(h + 1) * den)
  }

  /**
   What the design of a filter comes to. At an equal or higher output rate: the quality's own
   length, oversampling and bandwidth. At a lower one: a length that covers as many output periods
   as the quality's does, in whole eights; oversampling halved with the ratio; and a cutoff at the
   same fraction of the output's band, so that nothing above it passes. Always a band inside that
   of the input.
   */
  ghost predicate WellDesigned(length: int, oversample: int, cutoff: real, quality: int, num: pos, den: pos)
    requires 0 <= quality <= 10
  {
    var q := QualityMap(quality);
    && 0.0 < cutoff < 1.0 && length % 8 == 0
    && (num <= den ==> length == q.length && oversample == q.oversample && cutoff == q.upBandwidth)
    && (num > den ==>
          && q.length * num < (length + 1) * den && length * den < q.length * num + 8 * den
          && HalvedForRatio(oversample, q.oversample, num, den)
          && cutoff * num as real == q.downBandwidth * den as real
          && cutoff * num as real < den as real)
  }

  lemma LengthCovers(quality: int, num: pos, den: pos)
    requires 0 <= quality <= 10 && num > den
    ensures var base, length := QualityMap(quality).length, DesignLength(quality, num, den);
            base * num < (length + 1) * den && length * den < base * num + 8 * den
  {
    var base, length := QualityMap(quality).length, DesignLength(quality, num, den);
    hide QualityMap;
    StretchedLength(base, num, den);
    var n := base * num / den;
    DivMod(base * num, den);
    MulMono(n + 1, length + 1, den);
    Distribute(n, 1, den);
    MulMono(length, n + 7, den);
    Distribute(n, 7, den);
    hide DesignLength;
  }

  lemma OversampleHalves(quality: int, num: pos, den: pos)
    requires 0 <= quality <= 10 && num > den
    ensures HalvedForRatio(DesignOversample(quality, num, den), QualityMap(quality).oversample, num, den)
  {
    var base := QualityMap(quality).oversample;
    var o := DesignOversample(quality, num, den);
    hide QualityMap, HalvedTimes;
    var h := if 16 * den < num then 4 else if 8 * den < num then 3 else if 4 * den < num then 2
             else if 2 * den < num then 1 else 0;
    HalvingTimes(o, base, num, den, h);
  }

  lemma HalvingTimes(o: int, base: pos, num: pos, den: pos, h: nat)
    requires num > den
    requires o == Max(1, HalveIf(HalveIf(HalveIf(HalveIf(base, 2 * den < num), 4 * den < num), 8 * den < num),
                                 16 * den < num))
    requires h == if 16 * den < num then 4 else if 8 * den < num then 3 else if 4 * den < num then 2
                  else if 2 * den < num then 1 else 0
    ensures HalvedTimes(o, base, num, den, h)
  {
    Powers();
    assert base / 2 / 2 == base / 4 && base / 2 / 2 / 2 == base / 8 && base / 2 / 2 / 2 / 2 == base / 16;
    hide PowerOfTwo;
  }

  lemma Powers()
    ensures PowerOfTwo(0) == 1 && PowerOfTwo(1) == 2 && PowerOfTwo(2) == 4 && PowerOfTwo(3) == 8 && PowerOfTwo(4) == 16
  {
    assert PowerOfTwo(1) == 2 && PowerOfTwo(2) == 4 && PowerOfTwo(3) == 8;
  }

  // The cutoff keeps the quality's fraction of the output's band, whatever the rates.
  lemma CutoffScales(quality: int, num: pos, den: pos)
    requires 0 <= quality <= 10
    ensures 0.0 < DesignCutoff(quality, num, den) < 1.0
    ensures num > den ==>
              && DesignCutoff(quality, num, den) * num as real == QualityMap(quality).downBandwidth * den as real
              && DesignCutoff(quality, num, den) * num as real < den as real
  {
    QualityRises(quality, quality);
    if num > den {
      var band := QualityMap(quality).downBandwidth;
      DivideTimes(band * den as real, num as real);
      CutoffBand(band, den as real, num as real, DesignCutoff(quality, num, den));
      hide QualityMap;
    }
  }

  lemma DivideTimes(a: real, n: real)
    requires n > 0.0
    ensures a / n * n == a
  {
  }

  lemma CutoffBand(band: real, d: real, n: real, cutoff: real)
    requires 0.0 < band < 1.0 && 0.0 < d < n && cutoff * n == band * d
    ensures cutoff * n < d && 0.0 < cutoff < 1.0
  {
    Positive(band, d);
    var part := band * d;
    BandBelow(band, d, part);
    assert cutoff * n == part;
    ProperFraction(cutoff, n, part);
  }

  lemma Positive(a: real, b: real)
    requires a > 0.0 && b > 0.0
    ensures a * b > 0.0
  {
  }

  lemma BandBelow(band: real, d: real, part: real)
    requires band < 1.0 && d > 0.0 && part == band * d
    ensures part < d
  {
    var rest := 1.0 - band;
    Positive(rest, d);
    assert rest * d == d - band * d;
  }

  lemma ProperFraction(q: real, d: real, r: real)
    requires q * d == r && 0.0 < r < d
    ensures 0.0 < q < 1.0
  {
    assert d > 0.0;
    if q <= 0.0 {
      NotPositive(q, d);
    } else if q >= 1.0 {
      NotPositive(1.0 - q, d);
    }
  }

  lemma NotPositive(a: real, d: real)
    requires a <= 0.0 && d > 0.0
    ensures a * d <= 0.0
  {
  }

  lemma UpsamplingDesign(quality: int, num: pos, den: pos)
    requires 0 <= quality <= 10 && num <= den
    ensures DesignLength(quality, num, den) == QualityMap(quality).length
    ensures DesignOversample(quality, num, den) == QualityMap(quality).oversample
    ensures DesignCutoff(quality, num, den) == QualityMap(quality).upBandwidth
  {
    hide QualityMap;
  }

  lemma DesignIsWell(quality: int, num: pos, den: pos)
    requires 0 <= quality <= 10
    ensures WellDesigned(DesignLength(quality, num, den), DesignOversample(quality, num, den),
                         DesignCutoff(quality, num, den), quality, num, den)
  {
    hide QualityMap, HalvedForRatio, DesignLength, DesignOversample, DesignCutoff;
    CutoffScales(quality, num, den);
    if num > den {
      LengthCovers(quality, num, den);
      OversampleHalves(quality, num, den);
    } else {
      UpsamplingDesign(quality, num, den);
    }
  }

  // The windowed sinc: cutoff, argument, filter length, quality (which picks the window).
  type Sinc = (real, real, int, int) -> real

  function DirectEntry(sinc: Sinc, cutoff: real, length: int, quality: int, den: pos, i: int, j: int): real {
    sinc(cutoff, (j - length / 2 + 1) as real - i as real / den as real, length, quality)
  }

  function InterpolatedEntry(sinc: Sinc, cutoff: real, length: int, quality: int, oversample: pos, k: int): real {
    sinc(cutoff, (k - 4) as real / oversample as real - (length / 2) as real, length, quality)
  }

  ghost predicate IsDirectTable(table: seq<real>, sinc: Sinc, cutoff: real, length: int, quality: int, den: pos) {
    && length * den <= |table|
    && forall i, j :: 0 <= i < den && 0 <= j < length ==>
         At(table, i * length + j) == DirectEntry(sinc, cutoff, length, quality, den, i, j)
  }

  ghost predicate IsInterpolatedTable(table: seq<real>, sinc: Sinc, cutoff: real, length: int, quality: int,
                                      oversample: pos) {
    && length * oversample + 8 <= |table|
    && forall k :: 0 <= k < length * oversample + 8 ==>
         At(table, k) == InterpolatedEntry(sinc, cutoff, length, quality, oversample, k)
  }

  /**
   The filter the design calls for at this quality and these rates: its length, and the table of
   the chosen kind, every entry the windowed sinc at its point.
   */
  ghost predicate DesignedFilter(f: Filter, sinc: Sinc, quality: int, num: pos, den: pos)
    requires 0 <= quality <= 10
  {
    var oversample := DesignOversample(quality, num, den);
    var cutoff := DesignCutoff(quality, num, den);
    && f.num == num && f.den == den && f.taps == DesignLength(quality, num, den)
    && if UseDirect(f.taps, oversample, den)
       then f.kernel.Direct? && IsDirectTable(f.kernel.table, sinc, cutoff, f.taps, quality, den)
       else && f.kernel.Interpolated? && f.kernel.oversample == oversample
            && IsInterpolatedTable(f.kernel.table, sinc, cutoff, f.taps, quality, oversample)
  }

  lemma OffsetBound(phase: nat, oversample: pos, den: pos)
    requires phase < den
    ensures 0 <= TableOffset(phase, oversample, den) < oversample
  {
    MulMono(phase + 1, den, oversample);
    MulMono(0, phase, oversample);
    Distribute(phase, 1, oversample);
    StartsBefore(phase * oversample, oversample, den);
    StartsBefore(phase * oversample, 0, den);
  }

  // The interpolating kernel reads only entries that update_filter has set.
  lemma InterpolationReadsTable(phase: nat, oversample: pos, den: pos, length: nat, j: nat, k: nat)
    requires phase < den && j < length && k < 4
    ensures 0 <= 4 + oversample - TableOffset(phase, oversample, den) - 2 + k + j * oversample < length * oversample + 8
  {
    OffsetBound(phase, oversample, den);
    MulMono(j + 1, length, oversample);
    MulMono(0, j, oversample);
    Distribute(j, 1, oversample);
  }

  // The direct kernel reads only entries that update_filter has set.
  lemma DirectReadsTable(phase: nat, den: pos, length: nat, j: nat)
    requires phase < den && j < length
    ensures 0 <= phase * length + j < length * den
  {
    MulMono(phase + 1, den, length);
    MulMono(0, phase, length);
    Distribute(phase, 1, length);
  }

  lemma Cancel(a: real, b: real, c: real)
    requires b != 0.0 && a == b * c
    ensures a / b == c
  {
  }

  // Both tables sample the same sinc at the same point.
  lemma SamePoint(phase: nat, oversample: pos, den: pos, length: int, j: nat)
    requires phase * oversample % den == 0
    ensures var k := 4 + oversample - TableOffset(phase, oversample, den) + j * oversample;
            (k - 4) as real / oversample as real - (length / 2) as real
            == (j - length / 2 + 1) as real - phase as real / den as real
  {
    var o := oversample as real;
    var d := den as real;
    var offset := TableOffset(phase, oversample, den);
    assert offset * den == phase * oversample;
    assert offset as real * d == phase as real * o by {
      assert offset as real * d == (offset * den) as real;
      assert phase as real * o == (phase * oversample) as real;
    }
    var r := phase as real / d;
    Cancel(phase as real, d, r);
    assert d * (o * r) == phase as real * o;
    assert d * (offset as real - o * r) == 0.0;
    assert offset as real == o * r;
    var n := oversample - offset + j * oversample;
    assert n as real == o * ((j + 1) as real - r) by {
      assert (j * oversample) as real == j as real * o;
    }
    Cancel(n as real, o, (j + 1) as real - r);
  }

  lemma {:induction false} SameDot(c: seq<real>, i: int, d: int, c': seq<real>, i': int, d': int, x: seq<real>, p: int,
                                   n: nat)
    requires forall j: nat :: j < n ==> Entry(c, i, d, j) == Entry(c', i', d', j)
    ensures Dot(c, i, d, x, p, n) == Dot(c', i', d', x, p, n)
  {
    if n == 0 {
    } else {
      SameDot(c, i, d, c', i', d', x, p, n - 1);
      assert Entry(c, i, d, n - 1) == Entry(c', i', d', n - 1);
    }
  }

  function Entry(c: seq<real>, i: int, d: int, j: nat): real {
    At(c, i + j * d)
  }

  /**
   Kernel agreement: wherever the phase falls on a table step, interpolation gives exactly what
   the direct table gives, on every input.
   */
  lemma KernelsAgree(sinc: Sinc, cutoff: real, quality: int, f: Filter, g: Filter, phase: nat, x: seq<real>, p: int)
    requires f.kernel.Interpolated? && g.kernel.Direct? && f.taps == g.taps && f.den == g.den
    requires IsInterpolatedTable(f.kernel.table, sinc, cutoff, f.taps, quality, f.kernel.oversample)
    requires IsDirectTable(g.kernel.table, sinc, cutoff, f.taps, quality, f.den)
    requires phase < f.den && phase * f.kernel.oversample % f.den == 0
    ensures Tap(f, phase, x, p) == Tap(g, phase, x, p)
  {
    var table, oversample := f.kernel.table, f.kernel.oversample;
    var base := 4 + oversample - TableOffset(phase, oversample, f.den) - 2;
    forall j: nat | j < f.taps
      ensures Entry(table, base + 2, oversample, j) == Entry(g.kernel.table, phase * f.taps, 1, j)
    {
      InterpolationReadsTable(phase, oversample, f.den, f.taps, j, 2);
      DirectReadsTable(phase, f.den, f.taps, j);
      SamePoint(phase, oversample, f.den, f.taps, j);
      var k := base + 2 + j * oversample;
      assert At(table, k) == InterpolatedEntry(sinc, cutoff, f.taps, quality, oversample, k);
      assert At(g.kernel.table, phase * f.taps + j) == DirectEntry(sinc, cutoff, f.taps, quality, f.den, phase, j);
    }
    SameDot(table, base + 2, oversample, g.kernel.table, phase * f.taps, 1, x, p, f.taps);
    OnStep(phase, oversample, f.den);
  }

  lemma OnStep(phase: nat, oversample: pos, den: pos)
    requires phase * oversample % den == 0
    ensures CubicCoef(TableFraction(phase, oversample, den)) == (0.0, 0.0, 1.0, 0.0)
  {
  }

  // What a designed filter's table is made of: the sinc at a cutoff inside the band of both rates.
  lemma DesignedIsWell(f: Filter, sinc: Sinc, quality: int, num: pos, den: pos) returns (cutoff: real)
    requires 0 <= quality <= 10 && DesignedFilter(f, sinc, quality, num, den)
    ensures exists oversample: pos :: WellDesigned(f.taps, oversample, cutoff, quality, num, den)
    ensures f.kernel.Direct? ==> IsDirectTable(f.kernel.table, sinc, cutoff, f.taps, quality, den)
    ensures f.kernel.Interpolated? ==>
              && WellDesigned(f.taps, f.kernel.oversample, cutoff, quality, num, den)
              && IsInterpolatedTable(f.kernel.table, sinc, cutoff, f.taps, quality, f.kernel.oversample)
    ensures !f.kernel.Silent?
  {
    hide DesignLength, DesignOversample, DesignCutoff, WellDesigned, IsDirectTable, IsInterpolatedTable, UseDirect;
    cutoff := DesignCutoff(quality, num, den);
    DesignIsWell(quality, num, den);
  }

  lemma DirectAlike(c: seq<real>, c': seq<real>, sinc: Sinc, cutoff: real, length: pos, quality: int, den: pos,
                    phase: nat, x: seq<real>, p: int)
    requires phase < den
    requires IsDirectTable(c, sinc, cutoff, length, quality, den)
    requires IsDirectTable(c', sinc, cutoff, length, quality, den)
    ensures Dot(c, phase * length, 1, x, p, length) == Dot(c', phase * length, 1, x, p, length)
  {
    forall j: nat | j < length
      ensures Entry(c, phase * length, 1, j) == Entry(c', phase * length, 1, j)
    {
      assert At(c, phase * length + j) == DirectEntry(sinc, cutoff, length, quality, den, phase, j);
      assert At(c', phase * length + j) == DirectEntry(sinc, cutoff, length, quality, den, phase, j);
    }
    SameDot(c, phase * length, 1, c', phase * length, 1, x, p, length);
  }

  // One of the four sums of the interpolating kernel.
  lemma InterpolatedAlike(c: seq<real>, c': seq<real>, sinc: Sinc, cutoff: real, length: pos, quality: int,
                          oversample: pos, den: pos, phase: nat, k: nat, x: seq<real>, p: int)
    requires phase < den && k < 4
    requires IsInterpolatedTable(c, sinc, cutoff, length, quality, oversample)
    requires IsInterpolatedTable(c', sinc, cutoff, length, quality, oversample)
    ensures var i := 4 + oversample - TableOffset(phase, oversample, den) - 2 + k;
            Dot(c, i, oversample, x, p, length) == Dot(c', i, oversample, x, p, length)
  {
    var i := 4 + oversample - TableOffset(phase, oversample, den) - 2 + k;
    forall j: nat | j < length
      ensures Entry(c, i, oversample, j) == Entry(c', i, oversample, j)
    {
      InterpolationReadsTable(phase, oversample, den, length, j, k);
      assert At(c, i + j * oversample) == At(c', i + j * oversample);
    }
    SameDot(c, i, oversample, c', i, oversample, x, p, length);
  }

  /**
   The design determines the filter: any two filters designed alike give the same output at every
   phase of every stream, however much longer one of the tables is.
   */
  lemma DesignDetermines(f: Filter, g: Filter, sinc: Sinc, quality: int, num: pos, den: pos, phase: nat, x: seq<real>,
                         p: int)
    requires 0 <= quality <= 10 && phase < den
    requires DesignedFilter(f, sinc, quality, num, den) && DesignedFilter(g, sinc, quality, num, den)
    ensures Tap(f, phase, x, p) == Tap(g, phase, x, p)
  {
    hide DesignLength, DesignCutoff, DesignOversample, UseDirect, CubicCoef, TableFraction, TableOffset, Dot, Weigh,
         IsDirectTable, IsInterpolatedTable;
    var cutoff := DesignCutoff(quality, num, den);
    match f.kernel
    case Direct(table) =>
      DirectAlike(table, g.kernel.table, sinc, cutoff, f.taps, quality, den, phase, x, p);
    case Interpolated(table, oversample) =>
      InterpolatedAlike(table, g.kernel.table, sinc, cutoff, f.taps, quality, oversample, den, phase, 0, x, p);
      InterpolatedAlike(table, g.kernel.table, sinc, cutoff, f.taps, quality, oversample, den, phase, 1, x, p);
      InterpolatedAlike(table, g.kernel.table, sinc, cutoff, f.taps, quality, oversample, den, phase, 2, x, p);
      InterpolatedAlike(table, g.kernel.table, sinc, cutoff, f.taps, quality, oversample, den, phase, 3, x, p);
  }

  ghost predicate Divides(d: pos, n: int) {
    n % d == 0
  }

  // No divisor from 2 up to (not including) `bound` is shared.
  ghost predicate NoCommonBelow(a: int, b: int, bound: int) {
    forall d: pos :: 2 <= d < bound ==> !(Divides(d, a) && Divides(d, b))
  }

  ghost predicate Coprime(a: int, b: int) {
    forall d: pos :: 2 <= d ==> !(Divides(d, a) && Divides(d, b))
  }

  lemma DividesProduct(d: pos, n: int, k: int)
    requires Divides(d, n)
    ensures Divides(d, n * k)
  {
    var q := n / d;
    assert n == q * d;
    assert n * k == (q * k) * d;
    DivModUnique(n * k, q * k, 0, d);
  }

  lemma DivisorBound(d: pos, n: pos)
    requires Divides(d, n)
    ensures d <= n
  {
    if n < d { DivModUnique(n, 0, n, d); }
  }

  lemma ExactQuotient(n: pos, fact: pos)
    requires Divides(fact, n)
    ensures n / fact >= 1 && n == (n / fact) * fact
    ensures fact >= 2 ==> n / fact < n
  {
    DivisorBound(fact, n);
    StartsBefore(n, 1, fact);
    StartsBefore(n, n, fact);
    if fact >= 2 { MulMono(2, fact, n); }
  }

  // Dividing both by a shared factor keeps the ratio and brings no smaller shared divisor.
  lemma DivideBoth(ratioNum: pos, ratioDen: pos, num: pos, den: pos, fact: pos, bound: int)
    requires SameRatio(num, den, ratioNum, ratioDen)
    requires Divides(fact, num) && Divides(fact, den) && NoCommonBelow(num, den, bound)
    ensures num / fact >= 1 && den / fact >= 1
    ensures SameRatio(num / fact, den / fact, ratioNum, ratioDen)
    ensures NoCommonBelow(num / fact, den / fact, bound)
  {
    ExactQuotient(num, fact);
    ExactQuotient(den, fact);
    var n, d := num / fact, den / fact;
    assert fact * (n * ratioDen - d * ratioNum) == 0 by {
      assert num * ratioDen == fact * (n * ratioDen);
      assert den * ratioNum == fact * (d * ratioNum);
    }
    forall e: pos | 2 <= e < bound
      ensures !(Divides(e, n) && Divides(e, d))
    {
      if Divides(e, n) && Divides(e, d) {
        DividesProduct(e, n, fact);
        DividesProduct(e, d, fact);
      }
    }
  }

  ghost predicate SameRatio(num: int, den: int, ratioNum: int, ratioDen: int) {
    num * ratioDen == den * ratioNum
  }

  lemma ReducedIsCoprime(num: pos, den: pos, bound: int)
    requires NoCommonBelow(num, den, bound) && bound > Min(num, den)
    ensures Coprime(num, den)
  {
    forall d: pos | 2 <= d
      ensures !(Divides(d, num) && Divides(d, den))
    {
      if Divides(d, num) && Divides(d, den) {
        DivisorBound(d, num);
        DivisorBound(d, den);
      }
    }
  }

  lemma CoprimeDifference(a: int, b: int)
    requires Coprime(a, b)
    ensures Coprime(a - b, b) && Coprime(b, a)
  {
    forall d: pos | 2 <= d
      ensures !(Divides(d, a - b) && Divides(d, b)) && !(Divides(d, b) && Divides(d, a))
    {
      assert !(Divides(d, a) && Divides(d, b));
      if Divides(d, a - b) && Divides(d, b) { DividesSum(d, a - b, b); }
    }
  }

  lemma DividesSum(d: pos, m: int, n: int)
    requires Divides(d, m) && Divides(d, n)
    ensures Divides(d, m + n)
  {
    DivMod(m, d);
    DivMod(n, d);
    Distribute(m / d, n / d, d);
    DivModUnique(m + n, m / d + n / d, 0, d);
  }

  lemma BothOne(a: pos)
    requires Coprime(a, a)
    ensures a == 1
  {
    DivModUnique(a, 1, 0, a);
    assert Divides(a, a);
  }

  /**
   Lowest terms: coprime rates divide, by one and the same factor, any others in their ratio. So
   they are the smallest in that ratio, and the only coprime ones.
   */
  lemma {:induction false} LowestTerms(num: pos, den: pos, otherNum: pos, otherDen: pos) returns (k: pos)
    requires Coprime(num, den) && SameRatio(num, den, otherNum, otherDen)
    ensures otherNum == k * num && otherDen == k * den
    decreases num + den
  {
    if num == den {
      BothOne(num);
      k := otherNum;
    } else if num > den {
      CoprimeDifference(num, den);
      Distribute(num, den, otherDen);
      Distribute(otherNum, otherDen, den);
      LargerRatio(num, den, otherNum, otherDen);
      k := LowestTerms(num - den, den, otherNum - otherDen, otherDen);
      Distribute(num - den, den, k);
    } else {
      CoprimeDifference(num, den);
      CoprimeDifference(den, num);
      Distribute(den, num, otherNum);
      Distribute(otherDen, otherNum, num);
      LargerRatio(den, num, otherDen, otherNum);
      CoprimeDifference(den - num, num);
      k := LowestTerms(num, den - num, otherNum, otherDen - otherNum);
      Distribute(den - num, num, k);
    }
  }

  lemma LargerRatio(num: pos, den: pos, otherNum: pos, otherDen: pos)
    requires num > den && num * otherDen == den * otherNum
    ensures otherNum > otherDen
  {
    if otherNum <= otherDen {
      MulMono(otherNum, otherDen, den);
      MulMono(den + 1, num, otherDen);
      Distribute(den, 1, otherDen);
    }
  }

  // The trial-division loop of set_rate_frac: it ends in lowest terms of the same ratio.
  method ReduceRatio(ratioNum: pos, ratioDen: pos) returns (num: pos, den: pos)
    ensures SameRatio(num, den, ratioNum, ratioDen)
    ensures Coprime(num, den)
  {
    num, den := ratioNum, ratioDen;
    var fact: pos := 2;
    while fact <= Min(num, den)
      invariant SameRatio(num, den, ratioNum, ratioDen)
      invariant 2 <= fact && NoCommonBelow(num, den, fact)
      decreases num + den - fact
    {
      num, den := DivideOut(ratioNum, ratioDen, num, den, fact);
      fact := fact + 1;
    }
    ReducedIsCoprime(num, den, fact);
  }

  // The inner loop: both are divided by `fact` while both can be.
  method DivideOut(ratioNum: pos, ratioDen: pos, num0: pos, den0: pos, fact: pos) returns (num: pos, den: pos)
    requires SameRatio(num0, den0, ratioNum, ratioDen)
    requires 2 <= fact && NoCommonBelow(num0, den0, fact)
    ensures SameRatio(num, den, ratioNum, ratioDen)
    ensures num <= num0 && den <= den0
    ensures NoCommonBelow(num, den, fact + 1)
  {
    hide SameRatio;
    num, den := num0, den0;
    while num % fact == 0 && den % fact == 0
      invariant SameRatio(num, den, ratioNum, ratioDen)
      invariant NoCommonBelow(num, den, fact)
      invariant num <= num0 && den <= den0
      decreases num
    {
      DivideBoth(ratioNum, ratioDen, num, den, fact, fact);
      ExactQuotient(num, fact);
      ExactQuotient(den, fact);
      num, den := num / fact, den / fact;
    }
  }

  function Rescale(phase: int, den: pos, oldDen: pos): int {
    phase * den / oldDen
  }

  // The phase carried over to a new denominator is the exact one rounded down, so it is
  // already below the denominator and the clamp after it never fires.
  lemma RescaleIsFloor(phase: nat, den: pos, oldDen: pos)
    requires phase < oldDen
    ensures var s := Rescale(phase, den, oldDen);
            && 0 <= s < den
            && s * oldDen <= phase * den < (s + 1) * oldDen
  {
    MulMono(phase + 1, oldDen, den);
    MulMono(0, phase, den);
    Distribute(phase, 1, den);
    StartsBefore(phase * den, den, oldDen);
    StartsBefore(phase * den, 0, oldDen);
    DivMod(phase * den, oldDen);
    Distribute(phase * den / oldDen, 1, oldDen);
  }

  // The product in the 32 bits the source computes it in.
  function RescaleWrapped(phase: int, den: pos, oldDen: pos): int {
    phase * den % WRAP / oldDen
  }

  const WRAP: pos := 0x1_0000_0000

  /**
   In 32-bit arithmetic the clamp still never fires, but the phase is the exact one rounded down
   if and only if the product fits: once it wraps, the phase carried over is a smaller one.
   */
  lemma RescaleWithin32Bits(phase: nat, den: pos, oldDen: pos)
    requires phase < oldDen < WRAP && den < WRAP
    ensures 0 <= RescaleWrapped(phase, den, oldDen) <= Rescale(phase, den, oldDen) < den
    ensures RescaleWrapped(phase, den, oldDen) == Rescale(phase, den, oldDen) <==> phase * den < WRAP
  {
    RescaleIsFloor(phase, den, oldDen);
    var product := phase * den;
    MulMono(0, phase, den);
    DivMod(product, WRAP);
    StartsBefore(product % WRAP, 0, oldDen);
    if product < WRAP {
      DivModUnique(product, 0, product, WRAP);
    } else {
      StartsBefore(product, 1, WRAP);
      MulMono(1, product / WRAP, WRAP);
      DivMono(product % WRAP, product - oldDen, oldDen);
      DivShift(product, 1, oldDen);
    }
  }

  // It can wrap: a denominator of 65537 kept across a change of the numerator, and its last phase.
  lemma RescaleCanWrap()
    ensures RescaleWrapped(65536, 65537, 65537) < Rescale(65536, 65537, 65537)
  {
    RescaleWithin32Bits(65536, 65537, 65537);
  }
}
