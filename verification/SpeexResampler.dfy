/**
 The Speex resampler itself: the flat sample memory of all channels, the coefficient table and
 the per-channel counters, with the methods that process samples in place.
 */
module SpeexResampler {
  import opened Arithmetic
  import opened Polyphase
  import opened Channel
  import opened Chunks
  import opened FilterLength
  import opened FilterDesign
  import opened Strided
  import opened Blocks
  import opened Realigning

  datatype KernelPtr = DirectSingle | DirectDouble | InterpolateSingle | InterpolateDouble | Zero

  // The caller's input: a null pointer stands for silence.
  datatype Input = Null | Samples(samples: seq<real>)

  function Offered(input: Input, off: nat, stride: pos, n: nat): (data: seq<real>)
    ensures |data| == n
  {
    match input
    case Null => Zeros(n)
    case Samples(s) => Gather(s, off, stride, n)
  }

  function InputAt(input: Input, off: nat, stride: pos, j: nat): real {
    match input
    case Null => 0.0
    case Samples(s) => At(s, off + j * stride)
  }

  lemma OfferedStep(input: Input, off: nat, stride: pos, n: nat)
    ensures Offered(input, off, stride, n + 1) == Offered(input, off, stride, n) + [InputAt(input, off, stride, n)]
    ensures Offered(input, off, stride, 0) == []
  {
  }

  lemma ReadableAt(input: Input, off: nat, stride: pos, n: nat, j: nat)
    requires Readable(input, off, stride, n) && j < n
    ensures input.Samples? ==> 0 <= off + j * stride < |input.samples|
  {
    MulMono(j, n - 1, stride);
    MulMono(0, j, stride);
  }

  // n samples from o on, stride apart, lie inside a buffer of `length` samples.
  predicate Spans(o: nat, stride: pos, n: nat, length: nat) {
    n == 0 || o + (n - 1) * stride < length
  }

  predicate Readable(input: Input, off: nat, stride: pos, n: nat) {
    input.Samples? ==> Spans(off, stride, n, |input.samples|)
  }

  lemma SpansRest(o: nat, d: pos, n: nat, length: nat, k: nat)
    requires Spans(o, d, n, length) && k <= n
    ensures Spans(o + k * d, d, n - k, length)
  {
    if k < n { Distribute(n - 1 - k, k, d); }
  }

  lemma SpansFirst(o: nat, d: pos, n: nat, length: nat, k: nat)
    requires Spans(o, d, n, length) && k <= n
    ensures Spans(o, d, k, length)
  {
    if 0 < k { MulMono(k - 1, n - 1, d); }
  }

  lemma ReadableRest(input: Input, off: nat, stride: pos, n: nat, taken: nat, k: nat)
    requires Readable(input, off, stride, n) && taken + k <= n
    ensures Readable(input, off + taken * stride, stride, k)
  {
    if input.Samples? {
      SpansRest(off, stride, n, |input.samples|, taken);
      SpansFirst(off + taken * stride, stride, n - taken, |input.samples|, k);
    }
  }

  // A whole number of frames of d samples has room for every one of its d channels.
  lemma FramesSpan(o: nat, i: nat, d: pos, n: nat, length: nat)
    requires i < d && o + n * d <= length
    ensures Spans(o + i, d, n, length)
  {
    if n > 0 { Distribute(n - 1, 1, d); }
  }

  // A call for every channel, each with its own interleaved samples.
  function CallAll(f: Filter, cs: seq<Channel>, input: Input, off: nat, inLen: nat, outLen: nat,
                   xlen: pos): (ps: seq<Processed>)
    requires forall c :: c in cs ==> Fits(f, c)
    requires |cs| > 0
    ensures |ps| == |cs|
  {
    seq(|cs|, i requires 0 <= i < |cs| => Process(f, cs[i], Offered(input, off + i, |cs|, inLen), outLen, xlen))
  }

  lemma CallAllAt(f: Filter, cs: seq<Channel>, input: Input, off: nat, inLen: nat, outLen: nat, xlen: pos, i: nat)
    requires i < |cs| && forall c :: c in cs ==> Fits(f, c)
    ensures Fits(f, cs[i])
    ensures CallAll(f, cs, input, off, inLen, outLen, xlen)[i]
            == Process(f, cs[i], Offered(input, off + i, |cs|, inLen), outLen, xlen)
  {
  }

  function Outs(ps: seq<Processed>): (outs: seq<seq<real>>)
    ensures |outs| == |ps|
  {
    seq(|ps|, i requires 0 <= i < |ps| => ps[i].out)
  }

  lemma OutsStep(ps: seq<Processed>, i: nat)
    requires i < |ps|
    ensures Outs(ps[..i + 1]) == Outs(ps[..i]) + [ps[i].out]
  {
  }

  lemma ScatterStep(s: seq<real>, o: nat, d: pos, ps: seq<Processed>, i: nat)
    requires i < |ps|
    ensures ScatterChannels(s, o, d, Outs(ps[..i + 1]))
            == Scatter(ScatterChannels(s, o, d, Outs(ps[..i])), o + i, d, ps[i].out)
  {
    OutsStep(ps, i);
    assert (Outs(ps[..i]) + [ps[i].out])[..i] == Outs(ps[..i]);
    hide Outs;
  }

  // Channels before i have had their call, the others not yet.
  ghost predicate Through(cs: seq<Channel>, ps: seq<Processed>, i: nat, now: seq<Channel>) {
    && |cs| == |ps| == |now|
    && forall k :: 0 <= k < |cs| ==> now[k] == if k < i then ps[k].chan else cs[k]
  }

  lemma ThroughStart(cs: seq<Channel>, ps: seq<Processed>, s: seq<real>, o: nat, d: pos)
    requires |cs| == |ps|
    ensures Through(cs, ps, 0, cs)
    ensures ScatterChannels(s, o, d, Outs(ps[..0])) == s
    ensures ps[..|ps|] == ps
  {
    assert Outs(ps[..0]) == [];
  }

  lemma ThroughStep(cs: seq<Channel>, ps: seq<Processed>, i: nat, now: seq<Channel>)
    requires Through(cs, ps, i, now) && i < |cs|
    ensures now[i] == cs[i] && Through(cs, ps, i + 1, now[i := ps[i].chan])
  {
  }

  lemma OfferedSlice(input: Input, off: nat, stride: pos, n: nat, taken: nat, k: nat)
    requires taken + k <= n
    ensures Offered(input, off + taken * stride, stride, k) == Offered(input, off, stride, n)[taken..taken + k]
  {
    forall j | 0 <= j < k
      ensures off + taken * stride + j * stride == off + (taken + j) * stride
    {
      Distribute(taken, j, stride);
    }
  }

  method InnerProductSingle(c: array<real>, i: nat, x: array<real>, p: nat, n: nat) returns (sum: real)
    requires i + n <= c.Length && p + n <= x.Length
    ensures sum == Dot(c[..], i, 1, x[..], p, n)
  {
    sum := 0.0;
    for j := 0 to n
      invariant sum == Dot(c[..], i, 1, x[..], p, j)
    {
      sum := sum + c[i + j] * x[p + j];
    }
  }

  // Four running sums give the same result, because the length is a multiple of four.
  method InnerProductDouble(c: array<real>, i: nat, x: array<real>, p: nat, n: nat) returns (sum: real)
    requires i + n <= c.Length && p + n <= x.Length && n % 4 == 0
    ensures sum == Dot(c[..], i, 1, x[..], p, n)
  {
    hide Dot;
    DotNone(c[..], i, x[..], p);
    var a0, a1, a2, a3 := 0.0, 0.0, 0.0, 0.0;
    var j := 0;
    ghost var turns, turn := n / 4, 0;
    while j < n
      invariant n == 4 * turns && j == 4 * turn && 0 <= turn <= turns
      invariant a0 + a1 + a2 + a3 == Dot(c[..], i, 1, x[..], p, j)
      decreases turns - turn
    {
      DotFour(c[..], i, x[..], p, j);
      a0 := a0 + c[i + j] * x[p + j];
      a1 := a1 + c[i + j + 1] * x[p + j + 1];
      a2 := a2 + c[i + j + 2] * x[p + j + 2];
      a3 := a3 + c[i + j + 3] * x[p + j + 3];
      j, turn := j + 4, turn + 1;
    }
    sum := a0 + a1 + a2 + a3;
  }

  lemma DotNone(c: seq<real>, i: int, x: seq<real>, p: int)
    ensures Dot(c, i, 1, x, p, 0) == 0.0
  {
  }

  lemma DotFour(c: seq<real>, i: int, x: seq<real>, p: int, n: nat)
    ensures Dot(c, i, 1, x, p, n + 4)
            == Dot(c, i, 1, x, p, n)
               + At(c, i + n) * At(x, p + n) + At(c, i + n + 1) * At(x, p + n + 1)
               + At(c, i + n + 2) * At(x, p + n + 2) + At(c, i + n + 3) * At(x, p + n + 3)
  {
    assert Dot(c, i, 1, x, p, n + 2) == Dot(c, i, 1, x, p, n)
        + At(c, i + n) * At(x, p + n) + At(c, i + n + 1) * At(x, p + n + 1);
  }

  // Four sums over neighbouring table entries, a whole oversampling step apart for each sample.
  method FourSums(c: array<real>, i: nat, step: pos, x: array<real>, p: nat, n: pos)
    returns (a0: real, a1: real, a2: real, a3: real)
    requires i + (n - 1) * step + 3 < c.Length && p + n <= x.Length
    ensures a0 == Dot(c[..], i, step, x[..], p, n)
    ensures a1 == Dot(c[..], i + 1, step, x[..], p, n)
    ensures a2 == Dot(c[..], i + 2, step, x[..], p, n)
    ensures a3 == Dot(c[..], i + 3, step, x[..], p, n)
  {
    a0, a1, a2, a3 := 0.0, 0.0, 0.0, 0.0;
    for j := 0 to n
      invariant a0 == Dot(c[..], i, step, x[..], p, j)
      invariant a1 == Dot(c[..], i + 1, step, x[..], p, j)
      invariant a2 == Dot(c[..], i + 2, step, x[..], p, j)
      invariant a3 == Dot(c[..], i + 3, step, x[..], p, j)
    {
      MulMono(0, j, step);
      MulMono(j, n - 1, step);
      var k := i + j * step;
      var s := x[p + j];
      DotStep(c[..], i, step, x[..], p, j);
      DotStep(c[..], i + 1, step, x[..], p, j);
      DotStep(c[..], i + 2, step, x[..], p, j);
      DotStep(c[..], i + 3, step, x[..], p, j);
      hide Dot;
      a0 := a0 + c[k] * s;
      a1 := a1 + c[k + 1] * s;
      a2 := a2 + c[k + 2] * s;
      a3 := a3 + c[k + 3] * s;
    }
  }

  lemma DotStep(c: seq<real>, i: int, d: int, x: seq<real>, p: int, n: nat)
    ensures Dot(c, i, d, x, p, n + 1) == Dot(c, i, d, x, p, n) + At(c, i + n * d) * At(x, p + n)
  {
  }

  // The interpolating kernel: the four sums weighted by the cubic coefficients.
  method InterpolateProduct(table: array<real>, oversample: pos, den: pos, n: pos, phase: nat, x: array<real>, p: nat,
                            ghost f: Filter)
    returns (sum: real)
    requires f.taps == n && f.den == den && f.kernel == Interpolated(table[..], oversample)
    requires phase < den && n * oversample + 8 <= table.Length && p + n <= x.Length
    ensures sum == Tap(f, phase, x[..], p)
  {
    InterpolationReadsTable(phase, oversample, den, n, 0, 0);
    InterpolationReadsTable(phase, oversample, den, n, n - 1, 3);
    var offset := TableOffset(phase, oversample, den);
    var base := 4 + oversample - offset - 2;
    InterpolatedTap(f, phase, x[..], p, table[..], oversample, base);
    hide Tap, CubicCoef, TableOffset, TableFraction, Dot, Weigh;
    var a0, a1, a2, a3 := FourSums(table, base, oversample, x, p, n);
    var w := CubicCoef(TableFraction(phase, oversample, den));
    sum := Weigh(w, a0, a1, a2, a3);
  }

  lemma InterpolatedTap(f: Filter, phase: nat, x: seq<real>, p: nat, table: seq<real>, oversample: pos, base: int)
    requires f.kernel == Interpolated(table, oversample)
             && base == 4 + oversample - TableOffset(phase, oversample, f.den) - 2
    ensures var w := CubicCoef(TableFraction(phase, oversample, f.den));
            Tap(f, phase, x, p)
            == Weigh(w, Dot(table, base, oversample, x, p, f.taps), Dot(table, base + 1, oversample, x, p, f.taps),
                     Dot(table, base + 2, oversample, x, p, f.taps), Dot(table, base + 3, oversample, x, p, f.taps))
  {
    hide CubicCoef, TableOffset, TableFraction, Dot, Weigh;
  }

  // A window inside channel memory x, read in the flat memory that x is a slice of.
  lemma WindowOf(f: Filter, flat: seq<real>, b: nat, x: seq<real>, last: nat, frac: nat, t: int)
    requires b + |x| <= |flat| && x == flat[b..b + |x|]
    requires frac < f.den && t == last * f.den + frac && last + f.taps <= |x|
    ensures Tap(f, frac, flat, b + last) == Y(f, x, t)
  {
    hide Tap;
    DivModUnique(t, last, frac, f.den);
    assert SameWindow(flat, b + last, x, last, f.taps) by {
      forall k | b + last <= k < b + last + f.taps
        ensures At(flat, k) == At(x, k - (b + last) + last)
      {
        assert x[k - b] == flat[k];
      }
    }
    TapLocal(f, frac, flat, b + last, x, last);
  }

  // The memory has room for `used` samples (history and one buffer of input) and twice the
  // magic samples, and positions are in range.
  ghost predicate CounterOk(last: int, frac: int, magic: int, den: int, used: int, alloc: int, started: bool) {
    && 0 <= last
    && 0 <= frac < den
    && 0 <= magic
    && used + 2 * magic <= alloc
    && (!started ==> magic == 0)
  }

  ghost predicate AllCountersOk(last: seq<int>, frac: seq<int>, magic: seq<int>, n: nat, den: int, used: int,
                                alloc: int, started: bool) {
    && |last| == |frac| == |magic| == n
    && forall i :: 0 <= i < n ==> CounterOk(last[i], frac[i], magic[i], den, used, alloc, started)
  }

  lemma SetCounter(last: seq<int>, frac: seq<int>, magic: seq<int>, n: nat, den: int, used: int, alloc: int,
                   started: bool, ch: nat, l: int, f: int, m: int)
    requires AllCountersOk(last, frac, magic, n, den, used, alloc, started) && ch < n
    requires CounterOk(l, f, m, den, used, alloc, true)
    ensures AllCountersOk(last[ch := l], frac[ch := f], magic[ch := m], n, den, used, alloc, true)
  {
  }

  // The history and then the leftover magic samples move down by what the kernel passed.
  lemma MagicMoved(s: seq<real>, b: nat, gap: nat, h: nat, rest: nat, alloc: nat)
    requires h + gap + rest <= alloc && b + alloc <= |s|
    ensures var q := Blit(Blit(s, b, b + gap, h), b + h, b + h + gap, rest);
            && q[b..b + h + rest] == s[b..b + h + gap + rest][gap..]
            && OnlyWithin(s, q, b, alloc)
  {
    SlideTwice(s, b, gap, h, rest);
    BlitWithin(s, b, b + gap, h, b, alloc);
    BlitWithin(Blit(s, b, b + gap, h), b + h, b + h + gap, rest, b, alloc);
    OnlyWithinTwice(s, Blit(s, b, b + gap, h), Blit(Blit(s, b, b + gap, h), b + h, b + h + gap, rest), b, alloc);
    hide Blit;
    assert s[b..b + h + gap + rest][gap..] == s[b + gap..b + h + gap + rest];
  }

  // New samples behind the history and then a run of the kernel: the history becomes the last
  // samples passed, and nothing outside the channel's memory is touched.
  lemma ChunkMoved(s: seq<real>, b: nat, h: nat, v: seq<real>, used: nat, alloc: nat)
    requires h + |v| <= alloc && b + alloc <= |s| && used <= |v|
    ensures var w := Written(s, b + h, v);
            && w[b..b + h + |v|] == s[b..b + h] + v
            && Blit(w, b, b + used, h)[b..b + h] == (s[b..b + h] + v)[used..used + h]
            && OnlyWithin(s, Blit(w, b, b + used, h), b, alloc)
  {
    var w := Written(s, b + h, v);
    WrittenBehind(s, b, h, v, alloc);
    BlitSlice(w, b, b + used, h, b, b + h);
    BlitWithin(w, b, b + used, h, b, alloc);
    OnlyWithinTwice(s, w, Blit(w, b, b + used, h), b, alloc);
    hide Blit, Written;
    SubSlice(w, b, b + h + |v|, used, used + h);
  }

  // The chunk loop halfway through a call on channel c, whose memory lies at b in a flat memory
  // that was s and is now m, writing to a buffer that was out1 and is now out.
  ghost predicate Midway(f: Filter, c: Channel, data: seq<real>, room: nat, xlen: pos, b: nat, alloc: nat, s: seq<real>,
                         out1: seq<real>, o: nat, d: pos, taken: nat, made: nat, t: int, m: seq<real>, out: seq<real>)
  {
    && f.taps <= alloc && b + alloc <= |m|
    && Halfway(f, c.memory, data, Pos(f, c), room, xlen, taken, made, m[b..b + f.taps - 1], t)
    && OnlyWithin(s, m, b, alloc)
    && out == Scatter(out1, o, d, Outputs(f, c.memory + data, Pos(f, c), made))
  }

  lemma MidwayStart(f: Filter, c: Channel, data: seq<real>, room: nat, xlen: pos, b: nat, alloc: nat, s: seq<real>,
                    out1: seq<real>, o: nat, d: pos)
    requires Fits(f, c) && Magic(f, c) == 0 && f.taps <= alloc && b + alloc <= |s| && c.memory == s[b..b + f.taps - 1]
    ensures 0 <= Pos(f, c) && Midway(f, c, data, room, xlen, b, alloc, s, out1, o, d, 0, 0, Pos(f, c), s, out1)
  {
    MulMono(0, c.last, f.den);
    HalfwayStart(f, c.memory, data, Pos(f, c), room, xlen);
  }

  lemma MidwayTurn(f: Filter, c: Channel, data: seq<real>, room: nat, xlen: pos, b: nat, alloc: nat, s: seq<real>,
                   out1: seq<real>, o: nat, d: pos, taken: nat, made: nat, t: int, m: seq<real>, out: seq<real>,
                   n: nat, piece: seq<real>, m': seq<real>, out': seq<real>)
    requires Midway(f, c, data, room, xlen, b, alloc, s, out1, o, d, taken, made, t, m, out) && 0 <= t
    requires taken < |data| && made < room && n == Min(|data| - taken, xlen) && piece == data[taken..taken + n]
    requires var h := m[b..b + f.taps - 1] + piece;
             var used := Passed(f, t, n, room - made);
             && |m'| == |m| && m'[b..b + f.taps - 1] == h[used..used + f.taps - 1]
             && OnlyWithin(m, m', b, alloc)
             && out' == Scatter(out, o + made * d, d, Outputs(f, h, t, Made(f, t, n, room - made)))
    ensures var used := Passed(f, t, n, room - made);
            var more := Made(f, t, n, room - made);
            && 0 <= more <= room - made && used <= n && used + more > 0
            && 0 <= NativeEnd(f, t, n, room - made)
            && Midway(f, c, data, room, xlen, b, alloc, s, out1, o, d, taken + used, made + more,
                      NativeEnd(f, t, n, room - made), m', out')
  {
    var h := m[b..b + f.taps - 1];
    ChunkStep(f, c.memory, data, Pos(f, c), room, xlen, taken, made, h, t, n);
    ChunkOutputs(f, c.memory, data, Pos(f, c), room, xlen, taken, made, h, t, n);
    ScatterConcat(out1, o, d, Outputs(f, c.memory + data, Pos(f, c), made),
                  Outputs(f, h + piece, t, Made(f, t, n, room - made)));
    OnlyWithinTwice(s, m, m', b, alloc);
    MadeBound(f, t, n, room - made);
    hide Outputs, Scatter, OnlyWithin, Made, Passed;
  }

  lemma MidwayDone(f: Filter, c: Channel, data: seq<real>, room: nat, xlen: pos, b: nat, alloc: nat, s: seq<real>,
                   out1: seq<real>, o: nat, d: pos, taken: nat, made: nat, t: int, m: seq<real>, out: seq<real>)
    requires Fits(f, c) && Magic(f, c) == 0
    requires Midway(f, c, data, room, xlen, b, alloc, s, out1, o, d, taken, made, t, m, out)
    requires taken == |data| || made == room
    ensures Process(f, c, data, room, xlen)
            == Processed(PlaceAt(f, m[b..b + f.taps - 1], t), Outputs(f, c.memory + data, Pos(f, c), made), taken)
    ensures out == Scatter(out1, o, d, Process(f, c, data, room, xlen).out)
    ensures OnlyWithin(s, m, b, alloc)
  {
    ChunksDone(f, c, data, room, xlen, taken, made, m[b..b + f.taps - 1], t);
    hide Process, Halfway, Outputs, Scatter, OnlyWithin;
  }

  // The position one output later, carried digit by digit.
  function NextPos(last: int, frac: int, num: pos, den: pos): (int, int) {
    var f := frac + num % den;
    if f >= den then (last + num / den + 1, f - den) else (last + num / den, f)
  }

  lemma NextPosIs(last: nat, frac: nat, num: pos, den: pos)
    requires frac < den
    ensures NextPos(last, frac, num, den)
            == if frac + num % den >= den then (last + num / den + 1, frac + num % den - den)
               else (last + num / den, frac + num % den)
    ensures 0 <= num / den && 0 <= num % den
  {
    StartsBefore(num, 0, den);
  }

  lemma KernelStart(f: Filter, x: seq<real>, t: int, inLen: nat, outLen: nat, s: seq<real>, o: nat, d: pos)
    ensures Ahead(f, t, 0) == t && 0 <= Made(f, t, inLen, outLen)
    ensures Scatter(s, o, d, Outputs(f, x, t, 0)) == s
  {
  }

  // One turn of the kernel loop.
  lemma KernelStep(f: Filter, x: seq<real>, t: int, made: nat, inLen: nat, outLen: nat, last: int, frac: int,
                   s: seq<real>, o: nat, d: pos)
    requires 0 <= frac < f.den && last * f.den + frac == Ahead(f, t, made)
    requires last < inLen && made < outLen && Spans(o, d, outLen, |s|)
    ensures made + 1 <= Made(f, t, inLen, outLen)
    ensures 0 <= o + made * d < |s|
    ensures Scatter(s, o, d, Outputs(f, x, t, made + 1))
            == Scatter(s, o, d, Outputs(f, x, t, made))[o + made * d := Y(f, x, Ahead(f, t, made))]
    ensures var (last', frac') := NextPos(last, frac, f.num, f.den);
            0 <= frac' < f.den && last' * f.den + frac' == Ahead(f, t, made + 1)
  {
    hide Y;
    AvailExact(f, t, inLen, made);
    MulMono(last + 1, inLen, f.den);
    Distribute(last, 1, f.den);
    MulMono(0, made, d);
    MulMono(made, outLen - 1, d);
    assert Outputs(f, x, t, made + 1)[..made] == Outputs(f, x, t, made);
    Carry(last, frac, f.num, f.den);
    Distribute(made, 1, f.num);
    DivMod(Ahead(f, t, made + 1), f.den);
  }

  lemma KernelStop(f: Filter, t: int, made: nat, inLen: nat, outLen: nat, last: int, frac: int)
    requires 0 <= frac < f.den && last * f.den + frac == Ahead(f, t, made)
    requires last >= inLen || made >= outLen
    requires made <= Made(f, t, inLen, outLen)
    ensures made == Made(f, t, inLen, outLen)
    ensures last == (t + made * f.num) / f.den && frac == (t + made * f.num) % f.den
  {
    AvailExact(f, t, inLen, made);
    DivModUnique(Ahead(f, t, made), last, frac, f.den);
    StartsBefore(Ahead(f, t, made), inLen, f.den);
  }

  // Where a run of the kernel leaves the position.
  lemma NativeStep(f: Filter, t: int, inLen: nat, outLen: nat, made: nat, last: int, frac: int)
    requires 0 <= t && made == Made(f, t, inLen, outLen)
    requires last == (t + made * f.num) / f.den && frac == (t + made * f.num) % f.den
    ensures var consumed := if last < inLen then last else inLen;
            && consumed == Passed(f, t, inLen, outLen)
            && last - consumed == NativeEnd(f, t, inLen, outLen) / f.den
            && frac == NativeEnd(f, t, inLen, outLen) % f.den
            && last >= consumed >= 0
  {
    var consumed := Passed(f, t, inLen, outLen);
    DivShift(t + made * f.num, consumed, f.den);
  }

  // From bank a to z and from buffer s to w only channel ch has moved on, to p.chan, within its
  // own memory at b, and only p.out has been written, from o on in steps of d.
  ghost predicate Wrote(f: Filter, p: Processed, ch: nat, b: nat, alloc: nat, o: nat, d: pos,
                        a: Bank, s: seq<real>, z: Bank, w: seq<real>)
  {
    && Even(a) && ch < |a.last|
    && z.last == a.last[ch := p.chan.last]
    && z.frac == a.frac[ch := p.chan.frac]
    && z.magic == a.magic[ch := Magic(f, p.chan)]
    && OnlyWithin(a.mem, z.mem, b, alloc)
    && w == Scatter(s, o, d, p.out)
  }

  lemma WroteTwice(f: Filter, p: Processed, q: Processed, ch: nat, b: nat, alloc: nat, o: nat, d: pos,
                   x: Bank, u: seq<real>, y: Bank, v: seq<real>, z: Bank, w: seq<real>)
    requires Wrote(f, p, ch, b, alloc, o, d, x, u, y, v) && Wrote(f, q, ch, b, alloc, o + |p.out| * d, d, y, v, z, w)
    ensures Wrote(f, Processed(q.chan, p.out + q.out, q.taken), ch, b, alloc, o, d, x, u, z, w)
  {
    ScatterConcat(u, o, d, p.out, q.out);
    OnlyWithinTwice(x.mem, y.mem, z.mem, b, alloc);
    hide Scatter, OnlyWithin;
  }

  lemma WroteOther(f: Filter, p: Processed, ch: nat, alloc: nat, o: nat, d: pos, a: Bank, s: seq<real>, z: Bank,
                   w: seq<real>, k: nat)
    requires Wrote(f, p, ch, Start(ch, alloc), alloc, o, d, a, s, z, w)
    requires k < |a.last| && k != ch && 0 <= f.taps - 1 + a.magic[k] <= alloc && Start(k, alloc) + alloc <= |a.mem|
    ensures ChanIn(z, f.taps, alloc, k) == ChanIn(a, f.taps, alloc, k)
  {
    hide Start, Scatter, OnlyWithin;
    StartApart(k, ch, alloc);
    OutsideSame(a.mem, z.mem, Start(ch, alloc), alloc, Start(k, alloc), Start(k, alloc) + f.taps - 1 + a.magic[k]);
    SameSize(a.mem, z.mem, Start(ch, alloc), alloc);
  }

  // Of all channels only ch is another one after a call.
  lemma WroteOne(f: Filter, p: Processed, ch: nat, alloc: nat, o: nat, d: pos, a: Bank, s: seq<real>, z: Bank,
                 w: seq<real>)
    requires Wrote(f, p, ch, Start(ch, alloc), alloc, o, d, a, s, z, w)
    requires forall k: nat :: k < |a.last| ==>
               0 <= f.taps - 1 + a.magic[k] <= alloc && Start(k, alloc) + alloc <= |a.mem|
    requires ChanIn(z, f.taps, alloc, ch) == p.chan
    ensures ChansIn(z, f.taps, alloc) == ChansIn(a, f.taps, alloc)[ch := p.chan]
    ensures w == Scatter(s, o, d, p.out)
  {
    hide Start, Scatter, OnlyWithin, ChanIn;
    forall k: nat | k < |a.last| && k != ch
      ensures ChanIn(z, f.taps, alloc, k) == ChanIn(a, f.taps, alloc, k)
    {
      WroteOther(f, p, ch, alloc, o, d, a, s, z, w, k);
    }
  }

  ghost predicate Positioned(cs: seq<Channel>, den: int) {
    forall k: nat :: k < |cs| ==> 0 <= cs[k].last && 0 <= cs[k].frac < den
  }

  // What the counters say about the channels, and back.
  lemma ChannelsFromCounters(z: Bank, n: nat, den: int, taps: pos, buffer: nat, alloc: nat, started: bool)
    requires AllCountersOk(z.last, z.frac, z.magic, n, den, taps - 1 + buffer, alloc, started)
    requires |z.mem| == n * alloc
    ensures Even(z) && |z.last| == n
    ensures AreChannels(z, taps, alloc, ChansIn(z, taps, alloc))
    ensures RoomFor(ChansIn(z, taps, alloc), taps, buffer, alloc)
    ensures Positioned(ChansIn(z, taps, alloc), den)
  {
    var cs := ChansIn(z, taps, alloc);
    forall k: nat | k < n
      ensures IsChannel(z, taps, alloc, k, cs[k])
      ensures |cs[k].memory| >= taps - 1 && taps - 1 + 2 * (|cs[k].memory| - (taps - 1)) + buffer <= alloc
      ensures 0 <= cs[k].last && 0 <= cs[k].frac < den
    {
      assert CounterOk(z.last[k], z.frac[k], z.magic[k], den, taps - 1 + buffer, alloc, started);
      StartBound(k, n, alloc);
      hide Start;
      MakeChannel(z, taps, alloc, k, cs[k], taps - 1 + z.magic[k]);
    }
  }

  lemma CountersFromChannels(z: Bank, n: nat, den: int, taps: pos, buffer: nat, alloc: nat, cs: seq<Channel>)
    requires AreChannels(z, taps, alloc, cs) && |cs| == n
    requires RoomFor(cs, taps, buffer, alloc) && Positioned(cs, den)
    ensures AllCountersOk(z.last, z.frac, z.magic, n, den, taps - 1 + buffer, alloc, true)
  {
    hide IsChannel, Start;
    forall k: nat | k < n
      ensures CounterOk(z.last[k], z.frac[k], z.magic[k], den, taps - 1 + buffer, alloc, true)
    {
      ChannelFacts(z, taps, alloc, k, cs[k]);
    }
  }

  // Before the first sample there are no magic samples, so any memory that fits the filter does.
  lemma CountersUnstarted(last: seq<int>, frac: seq<int>, magic: seq<int>, n: nat, den: int, used: int, alloc: int,
                          used': int, alloc': int)
    requires AllCountersOk(last, frac, magic, n, den, used, alloc, false) && used' <= alloc'
    ensures AllCountersOk(last, frac, magic, n, den, used', alloc', false)
  {
  }

  // Room and position survive a change of filter length.
  lemma RealignedRoom(cs: seq<Channel>, was: pos, now: pos, buffer: nat, oldAlloc: nat, alloc: nat, den: int)
    requires was % 2 == 0 && now % 2 == 0
    requires RoomFor(cs, was, buffer, oldAlloc) && oldAlloc <= alloc && now - 1 + buffer <= alloc
    requires Positioned(cs, den)
    ensures RoomFor(RealignAll(cs, was, now), now, buffer, alloc)
    ensures Positioned(RealignAll(cs, was, now), den)
  {
    var rs := RealignAll(cs, was, now);
    hide Realign;
    forall k: nat | k < |cs|
      ensures |rs[k].memory| >= now - 1 && now - 1 + 2 * (|rs[k].memory| - (now - 1)) + buffer <= alloc
      ensures 0 <= rs[k].last && 0 <= rs[k].frac < den
    {
      RealignRoom(cs[k], was, now);
      RealignKeepsAlignment(cs[k], was, now);
    }
  }

  // From bank z to z' every channel has followed the change of filter length.
  ghost predicate Realigned(z: Bank, was: nat, oldAlloc: nat, z': Bank, now: nat, alloc: nat) {
    && was > 0 && was % 2 == 0 && now > 0 && now % 2 == 0
    && Even(z) && Even(z')
    && (forall k: nat :: k < |ChansIn(z, was, oldAlloc)| ==> |ChansIn(z, was, oldAlloc)[k].memory| >= was - 1)
    && ChansIn(z', now, alloc) == RealignAll(ChansIn(z, was, oldAlloc), was, now)
  }

  // What the counters and the memory are once every channel has followed the filter.
  lemma RealignedBank(z: Bank, n: nat, den: int, was: pos, now: pos, buffer: nat, oldAlloc: nat, alloc: nat,
                      cs: seq<Channel>)
    requires was % 2 == 0 && now % 2 == 0 && alloc == Max(oldAlloc, now - 1 + buffer)
    requires RoomFor(cs, was, buffer, oldAlloc) && Positioned(cs, den) && |cs| == n
    requires AreChannels(z, now, alloc, RealignAll(cs, was, now))
    ensures AllCountersOk(z.last, z.frac, z.magic, n, den, now - 1 + buffer, alloc, true)
    ensures Even(z) && ChansIn(z, now, alloc) == RealignAll(cs, was, now)
  {
    hide AreChannels, AllCountersOk, Positioned, RealignAll, ChansIn, Even;
    RealignedRoom(cs, was, now, buffer, oldAlloc, alloc, den);
    ChannelsIn(z, now, alloc, RealignAll(cs, was, now));
    AreEven(z, now, alloc, RealignAll(cs, was, now));
    CountersFromChannels(z, n, den, now, buffer, alloc, RealignAll(cs, was, now));
  }

  lemma BankRealigned(z: Bank, was: pos, oldAlloc: nat, z': Bank, now: pos, buffer: nat, alloc: nat)
    requires was % 2 == 0 && now % 2 == 0 && Even(z) && Even(z')
    requires RoomFor(ChansIn(z, was, oldAlloc), was, buffer, oldAlloc)
    requires ChansIn(z', now, alloc) == RealignAll(ChansIn(z, was, oldAlloc), was, now)
    ensures Realigned(z, was, oldAlloc, z', now, alloc)
  {
    hide ChansIn, RealignAll;
  }

  lemma FitsBefore(cs: seq<Channel>, taps: pos, buffer: nat, alloc: nat)
    requires RoomFor(cs, taps, buffer, alloc) && |cs| > 0
    ensures taps - 1 + buffer <= alloc
  {
    assert |cs[0].memory| >= taps - 1;
  }

  // All channels are at the same position and hold the same number of samples.
  ghost predicate Level(cs: seq<Channel>) {
    forall i: nat, j: nat :: i < |cs| && j < |cs| ==> SameShape(cs[i], cs[j])
  }

  ghost predicate SameShape(c: Channel, d: Channel) {
    |c.memory| == |d.memory| && c.last == d.last && c.frac == d.frac
  }

  ghost predicate AllSame(s: seq<int>) {
    forall i, j :: 0 <= i < |s| && 0 <= j < |s| ==> s[i] == s[j]
  }

  // The same said of the counters.
  ghost predicate InStep(z: Bank) {
    AllSame(z.last) && AllSame(z.frac) && AllSame(z.magic)
  }

  lemma RephasedInStep(z: Bank, den: pos, oldDen: pos)
    requires InStep(z)
    ensures InStep(Rephased(z, den, oldDen))
  {
    hide Rescale;
  }

  lemma LevelInStep(z: Bank, taps: pos, alloc: nat, cs: seq<Channel>)
    requires AreChannels(z, taps, alloc, cs)
    ensures Level(cs) <==> InStep(z)
  {
    forall k: nat | k < |cs|
      ensures z.last[k] == cs[k].last && z.frac[k] == cs[k].frac && z.magic[k] == |cs[k].memory| - (taps - 1)
    {
      ChannelFacts(z, taps, alloc, k, cs[k]);
    }
    hide IsChannel;
    if InStep(z) {
      forall i: nat, j: nat | i < |cs| && j < |cs|
        ensures SameShape(cs[i], cs[j])
      {
        assert z.last[i] == z.last[j] && z.frac[i] == z.frac[j] && z.magic[i] == z.magic[j];
      }
    }
    if Level(cs) {
      forall i, j | 0 <= i < |cs| && 0 <= j < |cs|
        ensures z.last[i] == z.last[j] && z.frac[i] == z.frac[j] && z.magic[i] == z.magic[j]
      {
        assert SameShape(cs[i], cs[j]);
      }
    }
  }

  lemma RealignSameShape(c: Channel, d: Channel, was: pos, now: pos)
    requires SameShape(c, d) && |c.memory| >= was - 1 && was % 2 == 0 && now % 2 == 0
    ensures SameShape(Realign(c, was, now), Realign(d, was, now))
  {
  }

  // A change of filter length keeps the channels in step.
  lemma RealignInStep(z: Bank, was: pos, oldAlloc: nat, z': Bank, now: pos, buffer: nat, alloc: nat, cs: seq<Channel>)
    requires was % 2 == 0 && now % 2 == 0 && RoomFor(cs, was, buffer, oldAlloc)
    requires AreChannels(z, was, oldAlloc, cs) && AreChannels(z', now, alloc, RealignAll(cs, was, now))
    ensures InStep(z) ==> InStep(z')
  {
    LevelInStep(z, was, oldAlloc, cs);
    LevelInStep(z', now, alloc, RealignAll(cs, was, now));
    hide AreChannels, InStep, Realign, SameShape;
    if Level(cs) {
      forall i: nat, j: nat | i < |cs| && j < |cs|
        ensures SameShape(Realign(cs[i], was, now), Realign(cs[j], was, now))
      {
        RealignSameShape(cs[i], cs[j], was, now);
      }
    }
  }

  lemma ProcessSameShape(f: Filter, c: Channel, x: seq<real>, d: Channel, y: seq<real>, olen: nat, xlen: pos)
    requires Fits(f, c) && Fits(f, d) && SameShape(c, d) && |x| == |y|
    ensures var p := Process(f, c, x, olen, xlen);
            var q := Process(f, d, y, olen, xlen);
            SameShape(p.chan, q.chan) && p.taken == q.taken && |p.out| == |q.out|
  {
    hide Y;
  }

  /**
   Channels in step stay in step through an interleaved call, and the counts the call returns,
   those of the last channel, are the counts of every channel.
   */
  lemma CallLevel(f: Filter, cs: seq<Channel>, input: Input, off: nat, inLen: nat, outLen: nat, xlen: pos,
                  now: seq<Channel>)
    requires |cs| > 0 && Level(cs) && forall c :: c in cs ==> Fits(f, c)
    requires Through(cs, CallAll(f, cs, input, off, inLen, outLen, xlen), |cs|, now)
    ensures var ps := CallAll(f, cs, input, off, inLen, outLen, xlen);
            && Level(now)
            && (forall i :: 0 <= i < |cs| ==> ps[i].taken == ps[|cs| - 1].taken && |ps[i].out| == |ps[|cs| - 1].out|)
  {
    var ps := CallAll(f, cs, input, off, inLen, outLen, xlen);
    hide CallAll, Process, Offered, Fits, SameShape;
    forall i: nat, j: nat | i < |cs| && j < |cs|
      ensures SameShape(now[i], now[j]) && ps[i].taken == ps[j].taken && |ps[i].out| == |ps[j].out|
    {
      CallAllAt(f, cs, input, off, inLen, outLen, xlen, i);
      CallAllAt(f, cs, input, off, inLen, outLen, xlen, j);
      ProcessSameShape(f, cs[i], Offered(input, off + i, |cs|, inLen), cs[j], Offered(input, off + j, |cs|, inLen),
                       outLen, xlen);
    }
  }

  /**
   Interleaved processing is de-interleaving, one mono call per channel, and interleaving the
   results: frame k of the output holds output k of every channel's own call.
   */
  lemma InterleavedIsMono(f: Filter, cs: seq<Channel>, s: seq<real>, off: nat, inLen: nat, outLen: nat, xlen: pos,
                          out: seq<real>, o: nat, k: nat, c: nat)
    requires |cs| > 0 && Level(cs) && (forall c :: c in cs ==> Fits(f, c)) && c < |cs|
    requires off + inLen * |cs| <= |s| && o + outLen * |cs| <= |out|
    requires k < |CallAll(f, cs, Samples(s), off, inLen, outLen, xlen)[|cs| - 1].out|
    ensures Fits(f, cs[c]) && 0 <= k * |cs| && o + k * |cs| + c < |out|
    ensures var ps := CallAll(f, cs, Samples(s), off, inLen, outLen, xlen);
            var mono := Process(f, cs[c], Gather(s, off + c, |cs|, inLen), outLen, xlen);
            && k < |mono.out| && ps[c].chan == mono.chan
            && ScatterChannels(out, o, |cs|, Outs(ps))[o + k * |cs| + c] == mono.out[k]
  {
    hide *;
    var d := |cs|;
    var ps := CallAll(f, cs, Samples(s), off, inLen, outLen, xlen);
    CallAllAt(f, cs, Samples(s), off, inLen, outLen, xlen, c);
    CallAllAt(f, cs, Samples(s), off, inLen, outLen, xlen, d - 1);
    OfferedSamples(s, off + c, d, inLen);
    LevelAt(cs, c, d - 1);
    ProcessSameShape(f, cs[c], Offered(Samples(s), off + c, d, inLen), cs[d - 1],
                     Offered(Samples(s), off + (d - 1), d, inLen), outLen, xlen);
    OutWithinRoom(f, cs[c], Offered(Samples(s), off + c, d, inLen), outLen, xlen);
    MulMono(0, k, d);
    MulMono(k + 1, outLen, d);
    Distribute(k, 1, d);
    ScatterChannelsAt(out, o, d, Outs(ps), k, c);
    OutsAt(ps, c);
  }

  lemma OfferedSamples(s: seq<real>, off: nat, d: pos, n: nat)
    ensures Offered(Samples(s), off, d, n) == Gather(s, off, d, n)
  {
  }

  lemma LevelAt(cs: seq<Channel>, i: nat, j: nat)
    requires Level(cs) && i < |cs| && j < |cs|
    ensures SameShape(cs[i], cs[j])
  {
  }

  lemma OutWithinRoom(f: Filter, c: Channel, data: seq<real>, olen: nat, xlen: pos)
    requires Fits(f, c)
    ensures |Process(f, c, data, olen, xlen).out| <= olen
  {
    hide Process;
    ProcessFacts(f, c, data, olen, xlen);
  }

  lemma OutsAt(ps: seq<Processed>, i: nat)
    requires i < |ps|
    ensures Outs(ps)[i] == ps[i].out
  {
  }

  datatype Outcome = Success | AllocFailed | InvalidArg

  // The phases carried over to another denominator.
  function Rephased(z: Bank, den: pos, oldDen: pos): Bank {
    z.(frac := seq(|z.frac|, k requires 0 <= k < |z.frac| => Rescale(z.frac[k], den, oldDen)))
  }

  function Unused(f: Filter, n: nat): seq<Channel> {
    seq(n, _ => Fresh(f))
  }

  function Repeat(n: nat, v: int): seq<int> {
    seq(n, _ => v)
  }

  // With no counts and no memory every channel is a fresh one.
  lemma FreshBank(f: Filter, z: Bank, n: nat, alloc: nat)
    requires z.last == z.frac == z.magic == Repeat(n, 0) && z.mem == Zeros(n * alloc) && f.taps - 1 <= alloc
    ensures ChansIn(z, f.taps, alloc) == Unused(f, n)
  {
    forall k: nat | k < n
      ensures ChanIn(z, f.taps, alloc, k) == Fresh(f)
    {
      StartBound(k, n, alloc);
    }
    hide ChanIn;
    assert |ChansIn(z, f.taps, alloc)| == n;
  }

  lemma Skipped(last: seq<int>, last': seq<int>, frac: seq<int>, magic: seq<int>, n: nat, den: int, used: int,
                alloc: int, started: bool)
    requires AllCountersOk(last, frac, magic, n, den, used, alloc, started)
    requires |last'| == n && forall k :: 0 <= k < n ==> 0 <= last'[k]
    ensures AllCountersOk(last', frac, magic, n, den, used, alloc, started)
  {
    forall k | 0 <= k < n
      ensures CounterOk(last'[k], frac[k], magic[k], den, used, alloc, started)
    {
      assert CounterOk(last[k], frac[k], magic[k], den, used, alloc, started);
    }
  }

  lemma PhasesBefore(last: seq<int>, frac: seq<int>, magic: seq<int>, n: nat, den: int, used: int, alloc: int,
                     started: bool)
    requires AllCountersOk(last, frac, magic, n, den, used, alloc, started)
    ensures |frac| == n && forall k :: 0 <= k < n ==> 0 <= frac[k] < den
  {
  }

  // What SetRateFrac does to each channel is the change of rates of `CarryOver`.
  lemma RateChangeCarriesOver(z: Bank, z': Bank, f: Filter, g: Filter, oldAlloc: nat, alloc: nat, k: nat)
    requires Even(z) && Realigned(Rephased(z, g.den, f.den), f.taps, oldAlloc, z', g.taps, alloc) && k < |z.last|
    ensures Even(z') && k < |z'.last| && |ChanIn(z, f.taps, oldAlloc, k).memory| >= f.taps - 1
    ensures ChanIn(z', g.taps, alloc, k) == CarryOver(ChanIn(z, f.taps, oldAlloc, k), f, g)
  {
    var y := Rephased(z, g.den, f.den);
    var c := ChanIn(z, f.taps, oldAlloc, k);
    assert ChanIn(y, f.taps, oldAlloc, k) == c.(frac := Rescale(c.frac, g.den, f.den));
    hide ChanIn, Realign, Rescale;
    assert ChansIn(y, f.taps, oldAlloc)[k] == ChanIn(y, f.taps, oldAlloc, k);
    assert ChansIn(z', g.taps, alloc)[k] == ChanIn(z', g.taps, alloc, k);
  }

  lemma RephasedOk(last: seq<int>, frac: seq<int>, magic: seq<int>, n: nat, den: pos, oldDen: pos, used: int,
                   alloc: int, started: bool, frac': seq<int>)
    requires AllCountersOk(last, frac, magic, n, oldDen, used, alloc, started)
    requires |frac'| == n && forall k :: 0 <= k < n ==> frac'[k] == Rescale(frac[k], den, oldDen)
    ensures AllCountersOk(last, frac', magic, n, den, used, alloc, started)
  {
    hide Rescale;
    forall k | 0 <= k < n
      ensures CounterOk(last[k], frac'[k], magic[k], den, used, alloc, started)
    {
      assert CounterOk(last[k], frac[k], magic[k], oldDen, used, alloc, started);
      RescaleIsFloor(frac[k], den, oldDen);
    }
  }

  // The double-precision kernels go with the two best qualities.
  function KernelFor(direct: bool, quality: int): (k: KernelPtr)
    ensures k.DirectSingle? || k.DirectDouble? <==> direct
    ensures k.DirectDouble? || k.InterpolateDouble? <==> quality >= 9
    ensures k != Zero
  {
    if direct then (if quality > 8 then DirectDouble else DirectSingle)
    else if quality > 8 then InterpolateDouble
    else InterpolateSingle
  }

  class Resampler {
    const sinc: Sinc
    const nbChannels: pos
    const bufferSize: nat

    var inRate: nat
    var outRate: nat
    var numRate: nat
    var denRate: nat
    var quality: int
    var filtLen: nat
    var memAllocSize: nat
    var intAdvance: nat
    var fracAdvance: nat
    var cutoff: real
    var oversample: nat
    var initialised: bool
    var started: bool
    var inStride: pos
    var outStride: pos
    var resamplerPtr: KernelPtr

    // One counter for every channel.
    var lastSample: seq<int>
    var sampFracNum: seq<int>
    var magicSamples: seq<int>

    // memAllocSize samples for every channel, one channel after the other.
    var mem: array<real>
    var sincTable: array<real>

    // The rates and the length of the filter agree.
    ghost predicate RatesOk()
      reads `numRate, `denRate, `intAdvance, `fracAdvance, `filtLen, `resamplerPtr, `oversample
    {
      && numRate > 0 && denRate > 0
      && intAdvance == numRate / denRate && fracAdvance == numRate % denRate
      && filtLen >= 8 && filtLen % 8 == 0
      && (resamplerPtr.InterpolateSingle? || resamplerPtr.InterpolateDouble? ==> oversample > 0)
    }

    ghost predicate CountersOk()
      reads `lastSample, `sampFracNum, `magicSamples, `denRate, `filtLen, `memAllocSize, `started
    {
      AllCountersOk(lastSample, sampFracNum, magicSamples, nbChannels, denRate, filtLen - 1 + bufferSize, memAllocSize,
                    started)
    }

    // Every table entry the chosen kernel reads is set.
    ghost predicate TableOk()
      reads `resamplerPtr, `quality, `denRate, `cutoff, `filtLen, `oversample, `sincTable, sincTable
    {
      match resamplerPtr
      case DirectSingle =>
        0 <= quality <= 10 && denRate > 0 && IsDirectTable(sincTable[..], sinc, cutoff, filtLen, quality, denRate)
      case DirectDouble =>
        0 <= quality <= 10 && denRate > 0 && IsDirectTable(sincTable[..], sinc, cutoff, filtLen, quality, denRate)
      case InterpolateSingle =>
        oversample > 0 && IsInterpolatedTable(sincTable[..], sinc, cutoff, filtLen, quality, oversample)
      case InterpolateDouble =>
        oversample > 0 && IsInterpolatedTable(sincTable[..], sinc, cutoff, filtLen, quality, oversample)
      case Zero => true
    }

    // memAllocSize samples for every channel.
    ghost predicate SizeOk()
      reads `mem, `memAllocSize
    {
      mem.Length == nbChannels * memAllocSize
    }

    ghost predicate Valid()
      reads `numRate, `denRate, `intAdvance, `fracAdvance, `filtLen, `resamplerPtr, `oversample, `quality, `cutoff
      reads `lastSample, `sampFracNum, `magicSamples, `memAllocSize, `started, `mem, `sincTable, sincTable
    {
      && bufferSize == 160
      && RatesOk()
      && CountersOk()
      && mem != sincTable
      && SizeOk()
      && TableOk()
    }

    // The filter this resampler applies.
    function Design(): (f: Filter)
      requires RatesOk()
      ensures f.taps == filtLen && f.num == numRate && f.den == denRate
      reads `numRate, `denRate, `intAdvance, `fracAdvance, `filtLen, `resamplerPtr, `oversample, `sincTable, sincTable
    {
      Filter(filtLen, numRate, denRate,
             match resamplerPtr
             case DirectSingle => Direct(sincTable[..])
             case DirectDouble => Direct(sincTable[..])
             case InterpolateSingle => Interpolated(sincTable[..], oversample)
             case InterpolateDouble => Interpolated(sincTable[..], oversample)
             case Zero => Silent)
    }

    function Base(i: nat): nat
      reads `memAllocSize
    {
      Start(i, memAllocSize)
    }

    // The position of channel i, in units of 1 / denRate of a sample.
    ghost function Now(i: nat): int
      requires i < |lastSample| == |sampFracNum|
      reads `lastSample, `sampFracNum, `denRate
    {
      lastSample[i] * denRate + sampFracNum[i]
    }

    // All channels' counters and memory.
    ghost function Held(): Bank
      reads `lastSample, `sampFracNum, `magicSamples, `mem, mem
    {
      Bank(lastSample, sampFracNum, magicSamples, mem[..])
    }

    // All channels have the same counters.
    ghost predicate InLockstep()
      reads `lastSample, `sampFracNum, `magicSamples, `mem, mem
    {
      InStep(Held())
    }

    lemma BaseBound(i: nat)
      requires SizeOk() && i < nbChannels
      ensures Base(i) + memAllocSize <= mem.Length
    {
      StartBound(i, nbChannels, memAllocSize);
    }

    lemma AtCounter(ch: nat)
      requires CountersOk() && ch < nbChannels
      ensures |lastSample| == |sampFracNum| == |magicSamples| == nbChannels
      ensures CounterOk(lastSample[ch], sampFracNum[ch], magicSamples[ch], denRate, filtLen - 1 + bufferSize,
                        memAllocSize, started)
    {
    }

    // What channel i holds: its history and its magic samples, and its position.
    ghost function Chan(i: nat): Channel
      requires i < nbChannels && CountersOk() && filtLen > 0 && SizeOk()
      reads `mem, `memAllocSize, `lastSample, `sampFracNum, `magicSamples, `denRate, `filtLen, `started, mem
    {
      BaseBound(i);
      assert CounterOk(lastSample[i], sampFracNum[i], magicSamples[i], denRate, filtLen - 1 + bufferSize, memAllocSize,
                       started);
      Channel(mem[Base(i)..Base(i) + filtLen - 1 + magicSamples[i]], lastSample[i], sampFracNum[i])
    }

    lemma ChanFacts(ch: nat)
      requires Valid() && ch < nbChannels
      ensures Base(ch) + memAllocSize <= mem.Length
      ensures |lastSample| == |sampFracNum| == |magicSamples| == nbChannels
      ensures CounterOk(lastSample[ch], sampFracNum[ch], magicSamples[ch], denRate, filtLen - 1 + bufferSize,
                        memAllocSize, started)
      ensures var c := Chan(ch);
              && Fits(Design(), c)
              && Magic(Design(), c) == magicSamples[ch]
              && Pos(Design(), c) == Now(ch) && 0 <= Now(ch)
              && c.memory == mem[..][Base(ch)..Base(ch) + filtLen - 1 + magicSamples[ch]]
              && c.last == lastSample[ch] && c.frac == sampFracNum[ch]
              && c == PlaceAt(Design(), c.memory, Now(ch))
    {
      BaseBound(ch);
      AtCounter(ch);
      MulMono(0, lastSample[ch], denRate);
      DivModUnique(Now(ch), lastSample[ch], sampFracNum[ch], denRate);
    }

    // All channels.
    ghost function Chans(): (cs: seq<Channel>)
      requires Even(Held())
      reads `lastSample, `sampFracNum, `magicSamples, `mem, `filtLen, `memAllocSize, mem
      ensures |cs| == |lastSample|
    {
      ChansIn(Held(), filtLen, memAllocSize)
    }

    lemma ChansAre()
      requires Valid()
      ensures |lastSample| == |sampFracNum| == |magicSamples| == nbChannels
      ensures forall k: nat :: k < nbChannels ==>
                0 <= filtLen - 1 + magicSamples[k] <= memAllocSize
                    && Start(k, memAllocSize) + memAllocSize <= |Held().mem|
      ensures forall k: nat :: k < nbChannels ==> Chans()[k] == Chan(k)
    {
      hide TableOk, Start, ChanIn;
      AtAll();
      forall k: nat | k < nbChannels
        ensures 0 <= filtLen - 1 + magicSamples[k] <= memAllocSize
        ensures Start(k, memAllocSize) + memAllocSize <= |Held().mem|
        ensures Chan(k) == ChanIn(Held(), filtLen, memAllocSize, k)
      {
        ChanIs(k);
      }
    }

    lemma AtAll()
      requires CountersOk()
      ensures |lastSample| == |sampFracNum| == |magicSamples| == nbChannels
    {
    }

    lemma ChanIs(k: nat)
      requires Valid() && k < nbChannels
      ensures |lastSample| == |sampFracNum| == |magicSamples| == nbChannels
      ensures 0 <= filtLen - 1 + magicSamples[k] <= memAllocSize
      ensures Start(k, memAllocSize) + memAllocSize <= |Held().mem|
      ensures Chan(k) == ChanIn(Held(), filtLen, memAllocSize, k)
    {
      ChanFacts(k);
      hide TableOk, Start;
    }

    // One output sample: the kernel function pointer applied at sample p of the memory.
    method OutputSample(phase: nat, p: nat) returns (sum: real)
      requires Valid() && phase < denRate && p + filtLen <= mem.Length
      ensures sum == Tap(Design(), phase, mem[..], p)
    {
      match resamplerPtr
      case DirectSingle =>
        DirectReadsTable(phase, denRate, filtLen, filtLen - 1);
        sum := InnerProductSingle(sincTable, phase * filtLen, mem, p, filtLen);
      case DirectDouble =>
        DirectReadsTable(phase, denRate, filtLen, filtLen - 1);
        sum := InnerProductDouble(sincTable, phase * filtLen, mem, p, filtLen);
      case InterpolateSingle =>
        sum := InterpolateProduct(sincTable, oversample, denRate, filtLen, phase, mem, p, Design());
      case InterpolateDouble =>
        sum := InterpolateProduct(sincTable, oversample, denRate, filtLen, phase, mem, p, Design());
      case Zero =>
        sum := 0.0;
    }

    // The loop shared by all five basic kernels: one output while the position is before the
    // end of the input and there is room, the position carried after each.
    method KernelLoop(b: nat, last0: nat, frac0: nat, inLen: nat, out: array<real>, o: nat, outLen: nat)
      returns (last: int, frac: int, made: nat)
      requires Valid() && b + filtLen - 1 + inLen <= mem.Length && frac0 < denRate
      requires out != mem && out != sincTable && Spans(o, outStride, outLen, out.Length)
      modifies out
      ensures var f := Design();
              var t := last0 * denRate + frac0;
              && made == Made(f, t, inLen, outLen)
              && last == (t + made * numRate) / denRate
              && frac == (t + made * numRate) % denRate
              && out[..] == Scatter(old(out[..]), o, outStride, Outputs(f, mem[b..b + filtLen - 1 + inLen], t, made))
    {
      hide *;
      RatesAre();
      last, frac := last0, frac0;
      ghost var f := Design();
      ghost var t := last * denRate + frac;
      ghost var x := mem[b..b + filtLen - 1 + inLen];
      made := 0;
      KernelStart(f, x, t, inLen, outLen, out[..], o, outStride);
      while !(last >= inLen || made >= outLen)
        invariant 0 <= last && 0 <= frac < denRate
        invariant last * denRate + frac == Ahead(f, t, made)
        invariant made <= Made(f, t, inLen, outLen)
        invariant out[..] == Scatter(old(out[..]), o, outStride, Outputs(f, x, t, made))
        decreases outLen - made
      {
        var sum := OutputSample(frac, b + last);
        WindowOf(f, mem[..], b, x, last, frac, Ahead(f, t, made));
        KernelStep(f, x, t, made, inLen, outLen, last, frac, old(out[..]), o, outStride);
        NextPosIs(last, frac, numRate, denRate);
        out[o + made * outStride] := sum;
        last, frac := last + intAdvance, frac + fracAdvance;
        if frac >= denRate {
          frac, last := frac - denRate, last + 1;
        }
        made := made + 1;
      }
      KernelStop(f, t, made, inLen, outLen, last, frac);
    }

    lemma RatesAre()
      requires Valid()
      ensures RatesOk() && numRate > 0 && denRate > 0 && filtLen > 0
      ensures intAdvance == numRate / denRate && fracAdvance == numRate % denRate
    {
    }

    // One run of the kernel over inLen new samples that already sit behind the history: the
    // position is then counted from the first sample not passed, and that many samples of
    // history move to the front.
    method ProcessNative(ch: nat, inLen: nat, out: array<real>, o: nat, outLen: nat) returns (consumed: nat, made: nat)
      requires Valid() && ch < nbChannels && filtLen - 1 + inLen <= memAllocSize
      requires out != mem && out != sincTable && Spans(o, outStride, outLen, out.Length)
      modifies this`lastSample, this`sampFracNum, this`started, mem, out
      ensures Valid() && started && Design() == old(Design())
      ensures Base(ch) + filtLen - 1 + inLen <= mem.Length
      ensures 0 <= old(Now(ch))
      ensures var f := Design();
              && made == Made(f, old(Now(ch)), inLen, outLen)
              && consumed == Passed(f, old(Now(ch)), inLen, outLen)
              && lastSample == old(lastSample)[ch := NativeEnd(f, old(Now(ch)), inLen, outLen) / denRate]
              && sampFracNum == old(sampFracNum)[ch := NativeEnd(f, old(Now(ch)), inLen, outLen) % denRate]
              && mem[..] == Blit(old(mem[..]), Base(ch), Base(ch) + consumed, filtLen - 1)
              && out[..] == Scatter(old(out[..]), o, outStride,
                                    Outputs(f, old(mem[..])[Base(ch)..Base(ch) + filtLen - 1 + inLen], old(Now(ch)),
                                            made))
    {
      hide Outputs, Scatter, Made, Passed, NativeEnd, TableOk, Design, Blit, AllCountersOk, Base, SizeOk;
      BaseBound(ch);
      AtCounter(ch);
      ghost var f := Design();
      ghost var t := Now(ch);
      MulMono(0, lastSample[ch], denRate);
      var last, frac;
      last, frac, made := KernelLoop(Base(ch), lastSample[ch], sampFracNum[ch], inLen, out, o, outLen);
      NativeStep(f, t, inLen, outLen, made, last, frac);
      consumed := if last < inLen then last else inLen;
      SetCounter(lastSample, sampFracNum, magicSamples, nbChannels, denRate, filtLen - 1 + bufferSize, memAllocSize,
                 started, ch, last - consumed, frac, magicSamples[ch]);
      assert magicSamples[ch := magicSamples[ch]] == magicSamples;
      lastSample, sampFracNum := lastSample[ch := last - consumed], sampFracNum[ch := frac];
      started := true;
      MoveDown(mem, Base(ch), Base(ch) + consumed, filtLen - 1);
    }

    // Draining the magic samples: they are run through the kernel where they lie, and those
    // there was no room for move down behind the history.
    method ProcessMagic(ch: nat, out: array<real>, o: nat, outLen: nat) returns (made: nat)
      requires Valid() && ch < nbChannels
      requires out != mem && out != sincTable && Spans(o, outStride, outLen, out.Length)
      modifies this`lastSample, this`sampFracNum, this`magicSamples, this`started, mem, out
      ensures Valid() && started && Design() == old(Design())
      ensures 0 <= old(Now(ch)) && |old(magicSamples)| == nbChannels && old(magicSamples[ch]) >= 0
      ensures var f := Design();
              var magic := old(magicSamples[ch]);
              var drop := Passed(f, old(Now(ch)), magic, outLen);
              && made == Made(f, old(Now(ch)), magic, outLen)
              && lastSample == old(lastSample)[ch := NativeEnd(f, old(Now(ch)), magic, outLen) / denRate]
              && sampFracNum == old(sampFracNum)[ch := NativeEnd(f, old(Now(ch)), magic, outLen) % denRate]
              && magicSamples == old(magicSamples)[ch := magic - drop]
              && Base(ch) + filtLen - 1 + magic <= mem.Length
              && mem[..][Base(ch)..Base(ch) + filtLen - 1 + magic - drop]
                 == old(mem[..])[Base(ch)..Base(ch) + filtLen - 1 + magic][drop..]
              && OnlyWithin(old(mem[..]), mem[..], Base(ch), memAllocSize)
              && out[..] == Scatter(old(out[..]), o, outStride,
                                    Outputs(f, old(mem[..])[Base(ch)..Base(ch) + filtLen - 1 + magic], old(Now(ch)),
                                            made))
    {
      hide *;
      MagicFits(ch);
      var inLen := magicSamples[ch];
      ghost var s := mem[..];
      var consumed;
      consumed, made := ProcessNative(ch, inLen, out, o, outLen);
      KeepMagic(ch, consumed);
      MagicMoved(s, Base(ch), consumed, filtLen - 1, inLen - consumed, memAllocSize);
    }

    lemma MagicFits(ch: nat)
      requires Valid() && ch < nbChannels
      ensures RatesOk() && filtLen > 0 && |lastSample| == |sampFracNum| == |magicSamples| == nbChannels
      ensures 0 <= magicSamples[ch] && filtLen - 1 + magicSamples[ch] <= memAllocSize
              && Base(ch) + memAllocSize <= mem.Length
      ensures 0 <= Now(ch)
    {
      hide AllCountersOk, TableOk, Base;
      BaseBound(ch);
      AtCounter(ch);
      MulMono(0, lastSample[ch], denRate);
    }

    // Magic samples not passed yet are saved right behind the history for next time.
    method KeepMagic(ch: nat, consumed: nat)
      requires Valid() && ch < nbChannels && started
      requires |magicSamples| == nbChannels && consumed <= magicSamples[ch]
      modifies this`magicSamples, mem
      ensures Valid() && Design() == old(Design())
      ensures magicSamples == old(magicSamples)[ch := old(magicSamples[ch]) - consumed]
      ensures 0 <= old(magicSamples[ch]) - consumed && Base(ch) + filtLen - 1 + old(magicSamples[ch]) <= mem.Length
      ensures mem[..] == Blit(old(mem[..]), Base(ch) + (filtLen - 1), Base(ch) + (filtLen - 1) + consumed,
                              old(magicSamples[ch]) - consumed)
    {
      hide TableOk, Design, AllCountersOk, Blit, Base, SizeOk;
      BaseBound(ch);
      AtCounter(ch);
      SetCounter(lastSample, sampFracNum, magicSamples, nbChannels, denRate, filtLen - 1 + bufferSize, memAllocSize,
                 started, ch, lastSample[ch], sampFracNum[ch], magicSamples[ch] - consumed);
      assert lastSample[ch := lastSample[ch]] == lastSample && sampFracNum[ch := sampFracNum[ch]] == sampFracNum;
      magicSamples := magicSamples[ch := magicSamples[ch] - consumed];
      MoveDown(mem, Base(ch) + (filtLen - 1), Base(ch) + (filtLen - 1) + consumed, magicSamples[ch]);
    }

    // The caller's samples, or silence, copied behind the history.
    method CopyIn(at: nat, input: Input, off: nat, n: nat)
      requires at + n <= mem.Length && Readable(input, off, inStride, n)
      modifies mem
      ensures mem[..] == Written(old(mem[..]), at, Offered(input, off, inStride, n))
    {
      hide Offered, Written, Readable;
      OfferedStep(input, off, inStride, 0);
      WrittenNone(mem[..], at);
      for j := 0 to n
        invariant mem[..] == Written(old(mem[..]), at, Offered(input, off, inStride, j))
      {
        ReadableAt(input, off, inStride, n, j);
        OfferedStep(input, off, inStride, j);
        WrittenStep(old(mem[..]), at, Offered(input, off, inStride, j), InputAt(input, off, inStride, j));
        mem[at + j] := if input.Samples? then input.samples[off + j * inStride] else 0.0;
      }
    }

    // One turn of the chunk loop: n samples of input are copied in and run through the kernel.
    method ProcessChunk(ch: nat, input: Input, off: nat, n: nat, out: array<real>, o: nat, room: nat)
      returns (used: nat, more: nat)
      requires Valid() && ch < nbChannels && filtLen - 1 + n <= memAllocSize && Readable(input, off, inStride, n)
      requires out != mem && out != sincTable && Spans(o, outStride, room, out.Length)
      modifies this`lastSample, this`sampFracNum, this`started, mem, out
      ensures Valid() && started && Design() == old(Design())
      ensures 0 <= old(Now(ch)) && Base(ch) + memAllocSize <= mem.Length
      ensures var f := Design();
              var h := old(mem[..])[Base(ch)..Base(ch) + filtLen - 1] + Offered(input, off, inStride, n);
              && used == Passed(f, old(Now(ch)), n, room)
              && more == Made(f, old(Now(ch)), n, room)
              && lastSample == old(lastSample)[ch := NativeEnd(f, old(Now(ch)), n, room) / denRate]
              && sampFracNum == old(sampFracNum)[ch := NativeEnd(f, old(Now(ch)), n, room) % denRate]
              && mem[..][Base(ch)..Base(ch) + filtLen - 1] == h[used..used + filtLen - 1]
              && OnlyWithin(old(mem[..]), mem[..], Base(ch), memAllocSize)
              && out[..] == Scatter(old(out[..]), o, outStride, Outputs(f, h, old(Now(ch)), more))
    {
      hide Outputs, Scatter, Made, Passed, NativeEnd, TableOk, Design, AllCountersOk, Blit, Written, OnlyWithin, Base,
           SizeOk, Readable, Offered, Now;
      BaseBound(ch);
      AtCounter(ch);
      ghost var s := mem[..];
      CopyIn(Base(ch) + (filtLen - 1), input, off, n);
      used, more := ProcessNative(ch, n, out, o, room);
      ChunkMoved(s, Base(ch), filtLen - 1, Offered(input, off, inStride, n), used, memAllocSize);
    }

    // The body of the chunk loop, which keeps the call halfway.
    method TakeChunk(ch: nat, input: Input, off: nat, inLen: nat, out: array<real>, o: nat, outLen: nat, taken: nat,
                     made: nat, ghost c: Channel, ghost s: seq<real>, ghost out1: seq<real>, xlen: pos)
      returns (used: nat, more: nat)
      requires Valid() && ch < nbChannels && Readable(input, off, inStride, inLen)
      requires xlen == memAllocSize - (filtLen - 1)
      requires out != mem && out != sincTable && Spans(o, outStride, outLen, out.Length)
      requires taken < inLen && made < outLen && |lastSample| == |sampFracNum| == nbChannels && 0 <= Now(ch)
      requires Midway(Design(), c, Offered(input, off, inStride, inLen), outLen, xlen, Base(ch), memAllocSize, s, out1,
                      o, outStride, taken, made, Now(ch), mem[..], out[..])
      modifies this`lastSample, this`sampFracNum, this`started, mem, out
      ensures Valid() && Design() == old(Design())
      ensures |lastSample| == |sampFracNum| == nbChannels && 0 <= Now(ch)
      ensures lastSample == old(lastSample)[ch := lastSample[ch]]
              && sampFracNum == old(sampFracNum)[ch := sampFracNum[ch]]
      ensures taken + used <= inLen && made + more <= outLen && used + more > 0
      ensures Midway(Design(), c, Offered(input, off, inStride, inLen), outLen, xlen, Base(ch), memAllocSize, s, out1,
                     o, outStride, taken + used, made + more, Now(ch), mem[..], out[..])
    {
      hide Outputs, Scatter, Made, Passed, NativeEnd, TableOk, Design, AllCountersOk, OnlyWithin, SizeOk, Readable,
           Offered, Midway, Base, Spans;
      ghost var data := Offered(input, off, inStride, inLen);
      ghost var f, t, m, w := Design(), Now(ch), mem[..], out[..];
      var n := Min(inLen - taken, xlen);
      OfferedSlice(input, off, inStride, inLen, taken, n);
      ReadableRest(input, off, inStride, inLen, taken, n);
      SpansRest(o, outStride, outLen, out.Length, made);
      used, more := ProcessChunk(ch, input, off + taken * inStride, n, out, o + made * outStride, outLen - made);
      DivMod(NativeEnd(f, t, n, outLen - made), denRate);
      MidwayTurn(f, c, data, outLen, xlen, Base(ch), memAllocSize, s, out1, o, outStride, taken, made, t, m, w,
                 n, data[taken..taken + n], mem[..], out[..]);
    }

    // The chunk loop: as long as there is input and room, as much input as the memory holds.
    method ProcessInput(ch: nat, input: Input, off: nat, inLen: nat, out: array<real>, o: nat, outLen: nat)
      returns (taken: nat, made: nat)
      requires Valid() && ch < nbChannels && Readable(input, off, inStride, inLen)
      requires out != mem && out != sincTable && Spans(o, outStride, outLen, out.Length)
      requires |magicSamples| == nbChannels && magicSamples[ch] == 0
      modifies this`lastSample, this`sampFracNum, this`started, mem, out
      ensures Valid() && Design() == old(Design()) && Fits(Design(), old(Chan(ch))) && filtLen <= memAllocSize
      ensures Base(ch) + memAllocSize <= mem.Length
      ensures var p := Process(Design(), old(Chan(ch)), Offered(input, off, inStride, inLen), outLen,
                               memAllocSize - (filtLen - 1));
              && Chan(ch) == p.chan && taken == p.taken && made == |p.out|
              && Wrote(Design(), p, ch, Base(ch), memAllocSize, o, outStride,
                       old(Held()), old(out[..]), Held(), out[..])
    {
      hide Outputs, Scatter, Made, Passed, NativeEnd, TableOk, Design, AllCountersOk, OnlyWithin, SizeOk, Readable,
           Offered, Midway, Process, Base, Spans, Chan, Pos, Now, PlaceAt;
      ChanFacts(ch);
      ghost var f := Design();
      ghost var c := Chan(ch);
      ghost var data := Offered(input, off, inStride, inLen);
      ghost var s := mem[..];
      ghost var out1 := out[..];
      var xlen: pos := memAllocSize - (filtLen - 1);
      MidwayStart(f, c, data, outLen, xlen, Base(ch), memAllocSize, s, out1, o, outStride);
      taken, made := 0, 0;
      while taken < inLen && made < outLen
        invariant Valid() && Design() == f
        invariant |lastSample| == |sampFracNum| == nbChannels
        invariant lastSample == old(lastSample)[ch := lastSample[ch]]
                  && sampFracNum == old(sampFracNum)[ch := sampFracNum[ch]]
        invariant 0 <= taken <= inLen && 0 <= made <= outLen && 0 <= Now(ch)
        invariant Midway(f, c, data, outLen, xlen, Base(ch), memAllocSize, s, out1, o, outStride, taken, made, Now(ch),
                         mem[..], out[..])
        decreases inLen - taken + outLen - made
      {
        var used, more := TakeChunk(ch, input, off, inLen, out, o, outLen, taken, made, c, s, out1, xlen);
        taken, made := taken + used, made + more;
      }
      MidwayDone(f, c, data, outLen, xlen, Base(ch), memAllocSize, s, out1, o, outStride, taken, made, Now(ch), mem[..],
                 out[..]);
      ChanFacts(ch);
    }

    // The magic samples first, if there are any.
    method DrainMagic(ch: nat, out: array<real>, o: nat, outLen: nat) returns (made: nat)
      requires Valid() && ch < nbChannels
      requires out != mem && out != sincTable && Spans(o, outStride, outLen, out.Length)
      modifies this`lastSample, this`sampFracNum, this`magicSamples, this`started, mem, out
      ensures Valid() && Design() == old(Design())
      ensures Fits(Design(), old(Chan(ch)))
      ensures var q := Drained(Design(), old(Chan(ch)), outLen);
              && Chan(ch) == q.chan && made == |q.out|
              && Wrote(Design(), q, ch, Base(ch), memAllocSize, o, outStride,
                       old(Held()), old(out[..]), Held(), out[..])
    {
      ChanFacts(ch);
      NothingHeld(Design(), Now(ch), outLen);
      hide Scatter, Made, Passed, TableOk, Design, AllCountersOk, SizeOk, Base, Spans, Chan, Pos, Now;
      made := 0;
      if magicSamples[ch] != 0 {
        hide NativeEnd, Outputs, OnlyWithin;
        made := ProcessMagic(ch, out, o, outLen);
        ChanFacts(ch);
      } else {
        KernelStart(Design(), Chan(ch).memory, Now(ch), 0, outLen, out[..], o, outStride);
      }
    }

    // The input after `made` outputs, the last of `first`, have already been written.
    method GoOn(ch: nat, input: Input, off: nat, inLen: nat, out: array<real>, o: nat, outLen: nat, made: nat,
                ghost first: Processed, ghost a: Bank, ghost s: seq<real>)
      returns (taken: nat, more: nat)
      requires Valid() && ch < nbChannels && Readable(input, off, inStride, inLen)
      requires out != mem && out != sincTable && Spans(o, outStride, outLen, out.Length)
      requires |magicSamples| == nbChannels && magicSamples[ch] == 0
      requires made == |first.out| <= outLen && first.chan == Chan(ch)
      requires Wrote(Design(), first, ch, Base(ch), memAllocSize, o, outStride, a, s, Held(), out[..])
      modifies this`lastSample, this`sampFracNum, this`started, mem, out
      ensures Valid() && Design() == old(Design()) && Fits(Design(), first.chan) && filtLen <= memAllocSize
      ensures var p := Process(Design(), first.chan, Offered(input, off, inStride, inLen), outLen - made,
                               memAllocSize - (filtLen - 1));
              && Chan(ch) == p.chan && taken == p.taken && more == |p.out|
              && Wrote(Design(), Processed(p.chan, first.out + p.out, p.taken), ch, Base(ch), memAllocSize, o,
                       outStride, a, s, Held(), out[..])
    {
      hide Wrote, Outputs, Scatter, Made, Passed, NativeEnd, TableOk, Design, AllCountersOk, OnlyWithin, SizeOk,
           Readable, Offered, Process, Base, Spans, Chan, Pos, Now;
      SpansRest(o, outStride, outLen, out.Length, made);
      ghost var y, v := Held(), out[..];
      taken, more := ProcessInput(ch, input, off, inLen, out, o + made * outStride, outLen - made);
      WroteTwice(Design(), first,
                 Process(Design(), first.chan, Offered(input, off, inStride, inLen), outLen - made,
                         memAllocSize - (filtLen - 1)),
                 ch, Base(ch), memAllocSize, o, outStride, a, s, y, v, Held(), out[..]);
    }

    // speex_resampler_process_float: first the magic samples, then, when none are left, the
    // input. False when the zero kernel stands in for a filter that could not be allocated.
    method ProcessFloat(ch: nat, input: Input, off: nat, inLen: nat, out: array<real>, o: nat, outLen: nat)
      returns (taken: nat, made: nat, success: bool)
      requires Valid() && ch < nbChannels && Readable(input, off, inStride, inLen)
      requires out != mem && out != sincTable && Spans(o, outStride, outLen, out.Length)
      modifies this`lastSample, this`sampFracNum, this`magicSamples, this`started, mem, out
      ensures Valid() && Design() == old(Design()) && Fits(Design(), old(Chan(ch))) && filtLen <= memAllocSize
      ensures Base(ch) + memAllocSize <= mem.Length
      ensures var p := Process(Design(), old(Chan(ch)), Offered(input, off, inStride, inLen), outLen,
                               memAllocSize - (filtLen - 1));
              && Chan(ch) == p.chan && taken == p.taken && made == |p.out|
              && Wrote(Design(), p, ch, Base(ch), memAllocSize, o, outStride,
                       old(Held()), old(out[..]), Held(), out[..])
      ensures old(Ready()) ==> Ready()
      ensures success <==> !resamplerPtr.Zero?
    {
      hide Wrote, Drained, Outputs, Scatter, Made, Passed, NativeEnd, TableOk, Design, AllCountersOk, OnlyWithin,
           SizeOk, Readable, Offered, Process, Base, Spans, Chan, Pos, Now;
      ChanFacts(ch);
      ghost var f, c := Design(), Chan(ch);
      ghost var data := Offered(input, off, inStride, inLen);
      ghost var xlen: pos := memAllocSize - (filtLen - 1);
      CallCases(f, c, data, outLen, xlen);
      taken := 0;
      made := DrainMagic(ch, out, o, outLen);
      ChanFacts(ch);
      if magicSamples[ch] == 0 {
        var more;
        taken, more := GoOn(ch, input, off, inLen, out, o, outLen, made, Drained(f, c, outLen), old(Held()),
                            old(out[..]));
        made := made + more;
      }
      if old(Ready()) { IsReady(); }
      success := resamplerPtr != Zero;
    }

    // ProcessFloat seen from all channels: only channel ch moves on.
    method ProcessOne(ch: nat, input: Input, off: nat, inLen: nat, out: array<real>, o: nat, outLen: nat)
      returns (taken: nat, made: nat)
      requires Valid() && ch < nbChannels && Readable(input, off, inStride, inLen)
      requires out != mem && out != sincTable && Spans(o, outStride, outLen, out.Length)
      requires |lastSample| == |sampFracNum| == |magicSamples| == nbChannels
      modifies this`lastSample, this`sampFracNum, this`magicSamples, this`started, mem, out
      ensures Valid() && Design() == old(Design()) && Fits(Design(), old(Chans())[ch]) && filtLen <= memAllocSize
      ensures |lastSample| == |sampFracNum| == |magicSamples| == nbChannels
      ensures var p := Process(Design(), old(Chans())[ch], Offered(input, off, inStride, inLen), outLen,
                               memAllocSize - (filtLen - 1));
              && Chans() == old(Chans())[ch := p.chan] && taken == p.taken && made == |p.out|
              && out[..] == Scatter(old(out[..]), o, outStride, p.out)
    {
      hide Outputs, Scatter, TableOk, Design, AllCountersOk, SizeOk, Readable, Offered, Process, Spans, ChansIn, ChanIn,
           Wrote, Start, Chan;
      ghost var a, s, c := Held(), out[..], Chan(ch);
      ChanFacts(ch);
      ChansAre();
      ghost var p := Process(Design(), c, Offered(input, off, inStride, inLen), outLen, memAllocSize - (filtLen - 1));
      var success;
      taken, made, success := ProcessFloat(ch, input, off, inLen, out, o, outLen);
      ChanIs(ch);
      WroteOne(Design(), p, ch, memAllocSize, o, outStride, a, s, Held(), out[..]);
      ChansAre();
    }

    lemma AllFit()
      requires Valid()
      ensures RatesOk() && nbChannels > 0
      ensures |lastSample| == |sampFracNum| == |magicSamples| == nbChannels && |Chans()| == nbChannels
      ensures forall c :: c in Chans() ==> Fits(Design(), c)
      ensures 0 < memAllocSize - (filtLen - 1)
    {
      AtAll();
      AtCounter(0);
      hide TableOk, Chan, Design, AllCountersOk, SizeOk, Start, Fits;
      forall k: nat | k < nbChannels
        ensures Fits(Design(), Chans()[k])
      {
        ChanFacts(k);
        ChanAt(k);
      }
    }

    lemma ChanAt(k: nat)
      requires Valid() && k < nbChannels
      ensures |lastSample| == |sampFracNum| == |magicSamples| == nbChannels
      ensures Chans()[k] == Chan(k)
    {
      ChanFacts(k);
    }

    // The call for channel i, those before it being done.
    method NextChannel(i: nat, input: Input, off: nat, inLen: nat, out: array<real>, o: nat, outLen: nat,
                       ghost cs: seq<Channel>, ghost ps: seq<Processed>, ghost s: seq<real>)
      returns (taken: nat, made: nat)
      requires Valid() && inStride == outStride == nbChannels && i < nbChannels
      requires out != mem && out != sincTable && o + outLen * nbChannels <= out.Length
      requires input.Samples? ==> off + inLen * nbChannels <= |input.samples|
      requires |lastSample| == |sampFracNum| == |magicSamples| == |cs| == nbChannels
      requires (forall c :: c in cs ==> Fits(Design(), c)) && filtLen <= memAllocSize
      requires ps == CallAll(Design(), cs, input, off, inLen, outLen, memAllocSize - (filtLen - 1))
      requires Through(cs, ps, i, Chans()) && out[..] == ScatterChannels(s, o, nbChannels, Outs(ps[..i]))
      modifies this`lastSample, this`sampFracNum, this`magicSamples, this`started, mem, out
      ensures Valid() && Design() == old(Design())
      ensures |lastSample| == |sampFracNum| == |magicSamples| == nbChannels
      ensures Through(cs, ps, i + 1, Chans()) && out[..] == ScatterChannels(s, o, nbChannels, Outs(ps[..i + 1]))
      ensures taken == ps[i].taken && made == |ps[i].out|
    {
      hide Outputs, Scatter, ScatterChannels, TableOk, Design, AllCountersOk, SizeOk, Offered, Process, Spans, ChansIn,
           Through, Outs, CallAll, Fits, Chans;
      FramesSpan(o, i, nbChannels, outLen, out.Length);
      if input.Samples? { FramesSpan(off, i, nbChannels, inLen, |input.samples|); }
      CallAllAt(Design(), cs, input, off, inLen, outLen, memAllocSize - (filtLen - 1), i);
      ThroughStep(cs, ps, i, Chans());
      ScatterStep(s, o, nbChannels, ps, i);
      taken, made := ProcessOne(i, input, off + i, inLen, out, o + i, outLen);
    }

    lemma LockstepIsLevel()
      requires Valid()
      ensures Even(Held()) && (InLockstep() <==> Level(Chans()))
    {
      hide TableOk, AllCountersOk, InStep, Level, AreChannels;
      ChannelsFromCounters(Held(), nbChannels, denRate, filtLen, bufferSize, memAllocSize, started);
      LevelInStep(Held(), filtLen, memAllocSize, Chans());
    }

    // After an interleaved call channels that were in step still are.
    lemma StillInLockstep(f: Filter, cs: seq<Channel>, input: Input, off: nat, inLen: nat, outLen: nat, xlen: pos)
      requires Valid() && |cs| > 0 && Level(cs) && forall c :: c in cs ==> Fits(f, c)
      requires Even(Held()) && Through(cs, CallAll(f, cs, input, off, inLen, outLen, xlen), |cs|, Chans())
      ensures InLockstep()
    {
      hide *;
      CallLevel(f, cs, input, off, inLen, outLen, xlen, Chans());
      LockstepIsLevel();
    }

    // One call after the other, each with the strides of interleaved frames.
    method EachChannel(input: Input, off: nat, inLen: nat, out: array<real>, o: nat, outLen: nat,
                       ghost cs: seq<Channel>, ghost ps: seq<Processed>)
      returns (taken: nat, made: nat)
      requires Valid() && inStride == outStride == nbChannels && Even(Held())
      requires out != mem && out != sincTable && o + outLen * nbChannels <= out.Length
      requires input.Samples? ==> off + inLen * nbChannels <= |input.samples|
      requires cs == Chans() && |cs| == nbChannels
      requires (forall c :: c in cs ==> Fits(Design(), c)) && filtLen <= memAllocSize
      requires ps == CallAll(Design(), cs, input, off, inLen, outLen, memAllocSize - (filtLen - 1))
      modifies this`lastSample, this`sampFracNum, this`magicSamples, this`started, mem, out
      ensures Valid() && Design() == old(Design()) && Even(Held())
      ensures |lastSample| == nbChannels
      ensures Through(cs, ps, nbChannels, Chans()) && out[..] == ScatterChannels(old(out[..]), o, nbChannels, Outs(ps))
      ensures taken == ps[nbChannels - 1].taken && made == |ps[nbChannels - 1].out|
    {
      hide Outputs, Scatter, ScatterChannels, TableOk, Design, AllCountersOk, SizeOk, Offered, Process, Spans, ChansIn,
           Outs, CallAll, Fits, Through, Chans;
      AtAll();
      ghost var f, s := Design(), out[..];
      taken, made := 0, 0;
      ThroughStart(cs, ps, s, o, nbChannels);
      for i := 0 to nbChannels
        invariant Valid() && Design() == f && inStride == outStride == nbChannels
        invariant |lastSample| == |sampFracNum| == |magicSamples| == nbChannels
        invariant Through(cs, ps, i, Chans())
        invariant out[..] == ScatterChannels(s, o, nbChannels, Outs(ps[..i]))
        invariant i > 0 ==> taken == ps[i - 1].taken && made == |ps[i - 1].out|
      {
        taken, made := NextChannel(i, input, off, inLen, out, o, outLen, cs, ps, s);
      }
    }

    /**
     speex_resampler_process_interleaved_float: every channel has a call of its own on its own
     samples of the frames, and the counts are those of the last channel.
     */
    method ProcessInterleaved(input: Input, off: nat, inLen: nat, out: array<real>, o: nat, outLen: nat)
      returns (taken: nat, made: nat, success: bool)
      requires Valid()
      requires out != mem && out != sincTable
      requires o + outLen * nbChannels <= out.Length
      requires input.Samples? ==> off + inLen * nbChannels <= |input.samples|
      modifies this`lastSample, this`sampFracNum, this`magicSamples, this`started, this`inStride, this`outStride, mem,
               out
      ensures Valid() && Design() == old(Design()) && inStride == old(inStride) && outStride == old(outStride)
      ensures |lastSample| == |sampFracNum| == |magicSamples| == |old(Chans())| == nbChannels
      ensures (forall c :: c in old(Chans()) ==> Fits(Design(), c)) && filtLen <= memAllocSize
      ensures var ps := CallAll(Design(), old(Chans()), input, off, inLen, outLen, memAllocSize - (filtLen - 1));
              && Through(old(Chans()), ps, nbChannels, Chans())
              && taken == ps[nbChannels - 1].taken && made == |ps[nbChannels - 1].out|
              && out[..] == ScatterChannels(old(out[..]), o, nbChannels, Outs(ps))
      ensures old(InLockstep()) ==> InLockstep()
      ensures old(Ready()) ==> Ready()
      ensures success <==> !resamplerPtr.Zero?
    {
      hide *;
      AllFit();
      LockstepIsLevel();
      IsStanding();
      var istrideSave, ostrideSave := inStride, outStride;
      ghost var f, cs, ready, level := Design(), Chans(), Ready(), InLockstep();
      ghost var xlen: pos := memAllocSize - (filtLen - 1);
      inStride, outStride := nbChannels, nbChannels;
      StandingIs(f, cs, ready, level);
      taken, made := EachChannel(input, off, inLen, out, o, outLen, cs,
                                 CallAll(f, cs, input, off, inLen, outLen, xlen));
      if level { StillInLockstep(f, cs, input, off, inLen, outLen, xlen); }
      if ready { IsReady(); }
      IsStanding();
      ghost var now, ready', level' := Chans(), Ready(), InLockstep();
      inStride, outStride := istrideSave, ostrideSave;
      StandingIs(f, now, ready', level');
      success := resamplerPtr != Zero;
    }

    // Everything about the channels that does not depend on the strides.
    ghost predicate Standing(f: Filter, cs: seq<Channel>, ready: bool, level: bool)
      reads `numRate, `denRate, `intAdvance, `fracAdvance, `filtLen, `resamplerPtr, `oversample, `quality, `cutoff,
            `initialised
      reads `lastSample, `sampFracNum, `magicSamples, `memAllocSize, `started, `mem, `sincTable, sincTable, mem
    {
      && Valid() && Design() == f && Even(Held()) && Chans() == cs && Ready() == ready && InLockstep() == level
    }

    lemma IsStanding()
      requires Valid()
      ensures RatesOk() && Even(Held()) && Standing(Design(), Chans(), Ready(), InLockstep())
    {
      AtAll();
      hide TableOk, AllCountersOk, InLockstep, Design, Chans;
    }

    lemma StandingIs(f: Filter, cs: seq<Channel>, ready: bool, level: bool)
      requires Standing(f, cs, ready, level)
      ensures Valid() && RatesOk() && Design() == f && Even(Held()) && Chans() == cs && Ready() == ready
              && InLockstep() == level
      ensures |lastSample| == |sampFracNum| == |magicSamples| == |cs| == nbChannels
      ensures ready ==>
                && initialised && 0 <= quality <= 10
                && (resamplerPtr != Zero ==> Designed()) && Coprime(numRate, denRate)
    {
      AtAll();
      hide TableOk, AllCountersOk, InLockstep, Design, Designed, Coprime;
    }

    // Growing one channel in place: its samples move to the new stride past zeros for its
    // magic samples; then either more zeros go in front, and the position moves with them, or
    // some of the magic samples are put back.
    method GrowChannel(i: nat, was: pos, oldAlloc: nat, ghost c: Channel)
      requires was % 2 == 0 && filtLen > was && filtLen % 2 == 0 && oldAlloc <= memAllocSize
      requires Even(Held()) && IsChannel(Held(), was, oldAlloc, i, c)
      requires |c.memory| >= was - 1 && filtLen - 1 <= memAllocSize
               && was - 1 + 2 * (|c.memory| - (was - 1)) <= memAllocSize
      requires Start(i, memAllocSize) + memAllocSize <= mem.Length
      modifies this`lastSample, this`magicSamples, mem
      ensures Even(Held()) && i < |lastSample| && IsChannel(Held(), filtLen, memAllocSize, i, Realign(c, was, filtLen))
      ensures |old(lastSample)| == |lastSample| == |old(magicSamples)|
      ensures lastSample == old(lastSample)[i := lastSample[i]]
              && magicSamples == old(magicSamples)[i := magicSamples[i]]
      ensures OnlyWithin(old(mem[..]), mem[..], Start(i, memAllocSize), memAllocSize)
    {
      hide Start, Realign, OnlyWithin, IsChannel;
      ChannelFacts(Held(), was, oldAlloc, i, c);
      StartMono(i, oldAlloc, memAllocSize);
      var olen := was + 2 * magicSamples[i];
      GrowMemory(mem, Start(i, oldAlloc), Start(i, memAllocSize), was, filtLen, magicSamples[i], memAllocSize, c);
      if filtLen > olen {
        magicSamples := magicSamples[i := 0];
        lastSample := lastSample[i := lastSample[i] + (filtLen - olen) / 2];
      } else {
        magicSamples := magicSamples[i := (olen - filtLen) / 2];
      }
      MakeChannel(Held(), filtLen, memAllocSize, i, Realign(c, was, filtLen), filtLen - 1 + magicSamples[i]);
    }

    // Shrinking one channel in place: the samples the filter no longer covers become magic.
    method ShrinkChannel(i: nat, was: pos, ghost c: Channel)
      requires was % 2 == 0 && 0 < filtLen < was && filtLen % 2 == 0
      requires Even(Held()) && IsChannel(Held(), was, memAllocSize, i, c)
      requires |c.memory| >= was - 1 && Start(i, memAllocSize) + memAllocSize <= mem.Length
      modifies this`magicSamples, mem
      ensures Even(Held()) && i < |lastSample| && IsChannel(Held(), filtLen, memAllocSize, i, Realign(c, was, filtLen))
      ensures |lastSample| == |old(magicSamples)| && magicSamples == old(magicSamples)[i := magicSamples[i]]
      ensures OnlyWithin(old(mem[..]), mem[..], Start(i, memAllocSize), memAllocSize)
    {
      hide Blit, Cleared, Start, Realign, OnlyWithin;
      Shrunk(mem[..], Start(i, memAllocSize), c, was, filtLen, memAllocSize);
      var at, oldMagic := Start(i, memAllocSize), magicSamples[i];
      magicSamples := magicSamples[i := (was - filtLen) / 2];
      MoveDown(mem, at, at + magicSamples[i], filtLen - 1 + magicSamples[i] + oldMagic);
      magicSamples := magicSamples[i := magicSamples[i] + oldMagic];
    }

    // Growing every channel, the last one first: no channel's new place reaches one that has
    // not been moved yet.
    method GrowChannels(was: pos, oldAlloc: nat, ghost cs: seq<Channel>)
      requires was % 2 == 0 && filtLen > was && filtLen % 2 == 0 && oldAlloc <= memAllocSize && SizeOk()
               && |cs| == nbChannels
      requires filtLen - 1 <= memAllocSize
      requires forall k: nat :: k < |cs| ==>
                 |cs[k].memory| >= was - 1 && was - 1 + 2 * (|cs[k].memory| - (was - 1)) <= memAllocSize
      requires Moved(cs, was, oldAlloc, filtLen, memAllocSize, nbChannels, nbChannels, Held())
      modifies this`lastSample, this`magicSamples, mem
      ensures Moved(cs, was, oldAlloc, filtLen, memAllocSize, 0, nbChannels, Held())
    {
      hide Start, Realign, OnlyWithin, IsChannel, SizeOk;
      var i: nat := nbChannels;
      while i > 0
        invariant i <= nbChannels
        invariant Moved(cs, was, oldAlloc, filtLen, memAllocSize, i, nbChannels, Held())
      {
        i := i - 1;
        BaseBound(i);
        ghost var z := Held();
        GrowChannel(i, was, oldAlloc, cs[i]);
        MovedStep(cs, was, oldAlloc, filtLen, memAllocSize, i + 1, nbChannels, i, nbChannels, i, z, Held());
      }
    }

    // Shrinking every channel, the first one first.
    method ShrinkChannels(was: pos, ghost cs: seq<Channel>)
      requires was % 2 == 0 && 0 < filtLen < was && filtLen % 2 == 0 && SizeOk() && |cs| == nbChannels
      requires forall k: nat :: k < |cs| ==> |cs[k].memory| >= was - 1
      requires Moved(cs, was, memAllocSize, filtLen, memAllocSize, 0, 0, Held())
      modifies this`magicSamples, mem
      ensures Moved(cs, was, memAllocSize, filtLen, memAllocSize, 0, nbChannels, Held())
    {
      hide Start, Realign, OnlyWithin, IsChannel, SizeOk;
      for i := 0 to nbChannels
        invariant Moved(cs, was, memAllocSize, filtLen, memAllocSize, 0, i, Held())
      {
        BaseBound(i);
        ghost var z := Held();
        ShrinkChannel(i, was, cs[i]);
        MovedStep(cs, was, memAllocSize, filtLen, memAllocSize, 0, i, 0, i + 1, i, z, Held());
      }
    }

    // memset: every sample of the flat memory becomes zero.
    method ClearAll()
      modifies mem
      ensures forall k :: 0 <= k < mem.Length ==> mem[k] == 0.0
    {
      for i := 0 to mem.Length
        invariant forall k :: 0 <= k < i ==> mem[k] == 0.0
      {
        mem[i] := 0.0;
      }
    }

    // The direct table: one filter for every phase.
    method FillDirect()
      requires denRate > 0 && filtLen > 0 && filtLen * denRate <= sincTable.Length
      modifies sincTable
      ensures IsDirectTable(sincTable[..], sinc, cutoff, filtLen, quality, denRate)
    {
      for i := 0 to denRate
        invariant forall a, j :: 0 <= a < i && 0 <= j < filtLen ==>
                    At(sincTable[..], a * filtLen + j) == DirectEntry(sinc, cutoff, filtLen, quality, denRate, a, j)
      {
        FillPhase(i);
      }
    }

    // One phase of it; the phases before are left alone.
    method FillPhase(i: nat)
      requires denRate > 0 && filtLen > 0 && filtLen * denRate <= sincTable.Length && i < denRate
      requires forall a, j :: 0 <= a < i && 0 <= j < filtLen ==>
                 At(sincTable[..], a * filtLen + j) == DirectEntry(sinc, cutoff, filtLen, quality, denRate, a, j)
      modifies sincTable
      ensures forall a, j :: 0 <= a < i + 1 && 0 <= j < filtLen ==>
                At(sincTable[..], a * filtLen + j) == DirectEntry(sinc, cutoff, filtLen, quality, denRate, a, j)
    {
      MulMono(0, i, filtLen);
      MulMono(i + 1, denRate, filtLen);
      Distribute(i, 1, filtLen);
      var base := i * filtLen;
      for j := 0 to filtLen
        invariant forall k :: 0 <= k < base ==> sincTable[k] == old(sincTable[k])
        invariant forall k :: 0 <= k < j ==>
                    At(sincTable[..], base + k) == DirectEntry(sinc, cutoff, filtLen, quality, denRate, i, k)
      {
        sincTable[base + j] := DirectEntry(sinc, cutoff, filtLen, quality, denRate, i, j);
      }
      forall a, j | 0 <= a < i && 0 <= j < filtLen
        ensures At(sincTable[..], a * filtLen + j) == DirectEntry(sinc, cutoff, filtLen, quality, denRate, a, j)
      {
        MulMono(a + 1, i, filtLen);
        MulMono(0, a, filtLen);
        Distribute(a, 1, filtLen);
        assert old(At(sincTable[..], a * filtLen + j)) == DirectEntry(sinc, cutoff, filtLen, quality, denRate, a, j);
      }
    }

    // The interpolated table: one long sinc at the oversampled rate, four entries past each end.
    method FillInterpolated()
      requires oversample > 0 && filtLen * oversample + 8 <= sincTable.Length
      modifies sincTable
      ensures IsInterpolatedTable(sincTable[..], sinc, cutoff, filtLen, quality, oversample)
    {
      var n := filtLen * oversample + 8;
      for i := 0 to n
        invariant forall k :: 0 <= k < i ==>
                    At(sincTable[..], k) == InterpolatedEntry(sinc, cutoff, filtLen, quality, oversample, k)
      {
        sincTable[i] := InterpolatedEntry(sinc, cutoff, filtLen, quality, oversample, i);
      }
    }

    // On a started resampler every channel follows the change of filter length.
    method MoveMemory(was: nat, oldAlloc: nat, ghost cs: seq<Channel>)
      requires filtLen > 0 && filtLen % 2 == 0 && was > 0 && was % 2 == 0 && SizeOk()
      requires memAllocSize == Max(oldAlloc, filtLen - 1 + bufferSize)
      requires |cs| == nbChannels && AreChannels(Held(), was, oldAlloc, cs) && RoomFor(cs, was, bufferSize, oldAlloc)
      modifies this`lastSample, this`magicSamples, mem
      ensures RoomFor(cs, was, bufferSize, oldAlloc)
      ensures AreChannels(Held(), filtLen, memAllocSize, RealignAll(cs, was, filtLen))
    {
      hide AreChannels, Moved, RealignAll, SizeOk, IsChannel;
      FitsBefore(cs, was, bufferSize, oldAlloc);
      if filtLen > was {
        NoneMoved(cs, was, oldAlloc, filtLen, memAllocSize, nbChannels, Held());
        GrowChannels(was, oldAlloc, cs);
        AllMoved(cs, was, oldAlloc, filtLen, memAllocSize, Held());
      } else if filtLen < was {
        NoneMoved(cs, was, oldAlloc, filtLen, memAllocSize, 0, Held());
        ShrinkChannels(was, cs);
        AllMoved(cs, was, oldAlloc, filtLen, memAllocSize, Held());
      } else {
        RealignAllSame(cs, was);
      }
    }

    // Room for a longer filter: a larger memory that begins with the old one, unless it cannot
    // be allocated.
    method EnlargeMemory(memAllocOk: bool) returns (ok: bool)
      requires SizeOk() && filtLen > 0
      modifies this`mem, this`memAllocSize
      ensures ok ==> && SizeOk() && memAllocSize == Max(old(memAllocSize), filtLen - 1 + bufferSize)
                     && mem.Length >= old(mem.Length) && mem[..old(mem.Length)] == old(mem[..])
      ensures mem != old(mem) ==> fresh(mem)
      ensures !ok ==> mem == old(mem) && memAllocSize == old(memAllocSize)
      ensures ok <==> MemoryAffordable(filtLen - 1 + bufferSize, nbChannels, old(memAllocSize), memAllocOk)
    {
      var minAllocSize := filtLen - 1 + bufferSize;
      ok := true;
      if minAllocSize > memAllocSize {
        if MAX_SAMPLES / nbChannels < minAllocSize || !memAllocOk {
          ok := false;
        } else {
          MulMono(memAllocSize, minAllocSize, nbChannels);
          var smaller, larger := mem, new real[nbChannels * minAllocSize];
          for i := 0 to smaller.Length
            invariant forall k :: 0 <= k < i ==> larger[k] == smaller[k]
          {
            larger[i] := smaller[i];
          }
          mem, memAllocSize := larger, minAllocSize;
        }
      }
    }

    // The coefficient table, direct when that takes less memory, and the kernel to go with it.
    method BuildTable(sincAllocOk: bool) returns (ok: bool)
      requires numRate > 0 && denRate > 0 && 0 <= quality <= 10 && filtLen >= 8 && oversample > 0 && mem != sincTable
      modifies this`sincTable, this`resamplerPtr, sincTable
      ensures ok ==> TableOk() && resamplerPtr == KernelFor(UseDirect(filtLen, oversample, denRate), quality)
      ensures sincTable != old(sincTable) ==> fresh(sincTable)
      ensures !ok ==> sincTable == old(sincTable) && resamplerPtr == old(resamplerPtr)
      ensures ok <==> TableAffordable(filtLen, oversample, denRate, old(sincTable.Length), sincAllocOk)
    {
      ok := false;
      var useDirect := UseDirect(filtLen, oversample, denRate);
      if !useDirect && (MAX_SAMPLES - 8) / oversample < filtLen {
        return;
      }
      var minLength: int := if useDirect then filtLen * denRate else filtLen * oversample + 8;
      MulMono(0, filtLen, denRate);
      MulMono(0, filtLen, oversample);
      if sincTable.Length < minLength {
        if !sincAllocOk {
          return;
        }
        sincTable := new real[minLength];
      }
      ok := true;
      resamplerPtr := KernelFor(useDirect, quality);
      if useDirect {
        FillDirect();
      } else {
        FillInterpolated();
      }
    }

    // The state update_filter starts from: rates and quality just set, the memory still laid
    // out for the filter before (none before the first call, when filtLen is 0).
    ghost predicate Settled()
      reads `numRate, `denRate, `quality, `filtLen, `memAllocSize, `lastSample, `sampFracNum, `magicSamples, `started,
            `mem, `sincTable
    {
      && bufferSize == 160
      && numRate > 0 && denRate > 0 && 0 <= quality <= 10
      && mem != sincTable && SizeOk()
      && filtLen % 8 == 0 && (filtLen == 0 ==> !started)
      && AllCountersOk(lastSample, sampFracNum, magicSamples, nbChannels, denRate,
                       if filtLen == 0 then 0 else filtLen - 1 + bufferSize, memAllocSize, started)
    }

    // The filter is the one designed for the rates and the quality.
    ghost predicate Designed()
      requires 0 <= quality <= 10 && numRate > 0 && denRate > 0
      reads `quality, `numRate, `denRate, `filtLen, `oversample, `cutoff, `resamplerPtr
    {
      && filtLen == DesignLength(quality, numRate, denRate)
      && oversample == DesignOversample(quality, numRate, denRate)
      && cutoff == DesignCutoff(quality, numRate, denRate)
      && resamplerPtr == KernelFor(UseDirect(filtLen, oversample, denRate), quality)
    }

    // The first part of update_filter: a new filter, its table and room for it, or the zero
    // kernel and the old length.
    method PrepareFilter(sincAllocOk: bool, memAllocOk: bool) returns (ok: bool)
      requires bufferSize == 160 && numRate > 0 && denRate > 0 && 0 <= quality <= 10 && mem != sincTable && SizeOk()
      modifies this`intAdvance, this`fracAdvance, this`oversample, this`filtLen, this`cutoff, this`sincTable,
               this`resamplerPtr
      modifies this`mem, this`memAllocSize, sincTable
      ensures sincTable != old(sincTable) ==> fresh(sincTable)
      ensures mem != old(mem) ==> fresh(mem)
      ensures mem != sincTable && SizeOk() && TableOk()
      ensures intAdvance == numRate / denRate && fracAdvance == numRate % denRate
      ensures ok ==> && Designed() && RatesOk() && resamplerPtr != Zero
                     && memAllocSize == Max(old(memAllocSize), filtLen - 1 + bufferSize)
                     && mem.Length >= old(mem.Length) && mem[..old(mem.Length)] == old(mem[..])
      ensures !ok ==> && resamplerPtr == Zero && filtLen == old(filtLen) && memAllocSize == old(memAllocSize)
                      && mem == old(mem) && mem[..] == old(mem[..])
      ensures ok <==> Affordable(quality, numRate, denRate, nbChannels, bufferSize, old(sincTable.Length),
                                 old(memAllocSize), sincAllocOk, memAllocOk)
    {
      hide SizeOk, TableOk, UseDirect, DesignLength, DesignOversample, DesignCutoff, TableAffordable, MemoryAffordable;
      var oldLength := filtLen;
      intAdvance, fracAdvance := numRate / denRate, numRate % denRate;
      oversample := DesignOversample(quality, numRate, denRate);
      filtLen := DesignLength(quality, numRate, denRate);
      cutoff := DesignCutoff(quality, numRate, denRate);
      ok := BuildTable(sincAllocOk);
      if ok {
        ok := EnlargeMemory(memAllocOk);
      }
      if !ok {
        Silence(oldLength);
      }
    }

    // The failure path: the kernel that makes zeros, and the length the memory still has.
    method Silence(oldLength: nat)
      modifies this`resamplerPtr, this`filtLen
      ensures resamplerPtr == Zero && filtLen == oldLength && TableOk()
    {
      resamplerPtr := Zero;
      filtLen := oldLength;
    }

    // The last part of update_filter: an unstarted resampler forgets its memory, a started one
    // moves it.
    method FollowFilter(was: nat, oldAlloc: nat, ghost z: Bank, ghost cs: seq<Channel>)
      requires filtLen > 0 && filtLen % 2 == 0 && was % 2 == 0 && SizeOk()
      requires memAllocSize == Max(oldAlloc, filtLen - 1 + bufferSize)
      requires Held() == z.(mem := mem[..]) && mem.Length >= |z.mem| && mem[..|z.mem|] == z.mem
      requires started ==>
                 && was > 0 && |cs| == nbChannels
                 && AreChannels(z, was, oldAlloc, cs) && RoomFor(cs, was, bufferSize, oldAlloc)
      modifies this`lastSample, this`magicSamples, mem
      ensures !started ==> Held() == z.(mem := Zeros(mem.Length))
      ensures started ==> RoomFor(cs, was, bufferSize, oldAlloc)
                          && AreChannels(Held(), filtLen, memAllocSize, RealignAll(cs, was, filtLen))
    {
      hide AreChannels, RealignAll, SizeOk, RoomFor;
      if started {
        Enlarged(z, mem[..], was, oldAlloc, cs);
        MoveMemory(was, oldAlloc, cs);
      } else {
        ClearAll();
        assert mem[..] == Zeros(mem.Length);
      }
    }

    // What a successful update_filter does to the channels.
    method Follow(was: nat, oldAlloc: nat, ghost z: Bank)
      requires filtLen > 0 && filtLen % 2 == 0 && was % 2 == 0 && SizeOk()
      requires memAllocSize == Max(oldAlloc, filtLen - 1 + bufferSize)
      requires Held() == z.(mem := mem[..]) && mem.Length >= |z.mem| && mem[..|z.mem|] == z.mem
      requires AllCountersOk(z.last, z.frac, z.magic, nbChannels, denRate, if was == 0 then 0 else was - 1 + bufferSize,
                             oldAlloc, started)
      requires started ==> was > 0 && |z.mem| == nbChannels * oldAlloc
      modifies this`lastSample, this`magicSamples, mem
      ensures CountersOk()
      ensures InStep(z) ==> InLockstep()
      ensures !started ==> Held() == z.(mem := Zeros(mem.Length))
      ensures started ==> Realigned(z, was, oldAlloc, Held(), filtLen, memAllocSize)
    {
      hide SizeOk, AllCountersOk, AreChannels, RoomFor, Positioned, Even, ChansIn, Realigned, RealignAll, InStep;
      ghost var cs: seq<Channel> := [];
      if started {
        ChannelsFromCounters(z, nbChannels, denRate, was, bufferSize, oldAlloc, true);
        cs := ChansIn(z, was, oldAlloc);
      }
      FollowFilter(was, oldAlloc, z, cs);
      if started {
        RealignedBank(Held(), nbChannels, denRate, was, filtLen, bufferSize, oldAlloc, memAllocSize, cs);
        BankRealigned(z, was, oldAlloc, Held(), filtLen, bufferSize, memAllocSize);
        RealignInStep(z, was, oldAlloc, Held(), filtLen, bufferSize, memAllocSize, cs);
      } else {
        CountersUnstarted(lastSample, sampFracNum, magicSamples, nbChannels, denRate,
                          if was == 0 then 0 else was - 1 + bufferSize, oldAlloc, filtLen - 1 + bufferSize,
                          memAllocSize);
        SameCounters(z, Held());
      }
    }

    lemma SameCounters(z: Bank, z': Bank)
      requires z'.last == z.last && z'.frac == z.frac && z'.magic == z.magic
      ensures InStep(z') == InStep(z)
    {
    }

    /**
     update_filter: a new filter for the rates and the quality just set, the channels moved to
     follow it; or, when memory cannot be had, the zero kernel over the memory as it was.
     */
    method UpdateFilter(sincAllocOk: bool, memAllocOk: bool) returns (ok: bool)
      requires Settled()
      modifies this`intAdvance, this`fracAdvance, this`oversample, this`filtLen, this`cutoff, this`sincTable,
               this`resamplerPtr
      modifies this`mem, this`memAllocSize, this`lastSample, this`magicSamples, sincTable, mem
      ensures sincTable != old(sincTable) ==> fresh(sincTable)
      ensures mem != old(mem) ==> fresh(mem)
      ensures ok ==> 0 <= quality <= 10 && numRate > 0 && denRate > 0
                     && WellDesigned(filtLen, oversample, cutoff, quality, numRate, denRate)
      ensures ok ==>
                && Valid() && Designed() && resamplerPtr != Zero
                && memAllocSize == Max(old(memAllocSize), filtLen - 1 + bufferSize)
      ensures old(InLockstep()) ==> InLockstep()
      ensures ok && started ==> Realigned(old(Held()), old(filtLen), old(memAllocSize), Held(), filtLen, memAllocSize)
      ensures ok && !started ==> Held() == old(Held()).(mem := Zeros(mem.Length))
      ensures !ok ==> && resamplerPtr == Zero && filtLen == old(filtLen) && memAllocSize == old(memAllocSize)
                      && Held() == old(Held()) && (filtLen > 0 ==> Valid())
      ensures ok <==> Affordable(quality, numRate, denRate, nbChannels, bufferSize, old(sincTable.Length),
                                 old(memAllocSize), sincAllocOk, memAllocOk)
    {
      hide *;
      SettledIs();
      HeldIs();
      ghost var z := Held();
      var was, oldAlloc := filtLen, memAllocSize;
      ok := PrepareFilter(sincAllocOk, memAllocOk);
      HeldIs();
      if ok {
        DesignedLength();
        DesignedWell();
        Follow(was, oldAlloc, z);
        HeldIs();
        IsValid();
      } else {
        StillValid();
      }
    }

    lemma SettledIs()
      requires Settled()
      ensures bufferSize == 160 && numRate > 0 && denRate > 0 && 0 <= quality <= 10 && mem != sincTable && SizeOk()
      ensures filtLen % 8 == 0 && filtLen % 2 == 0 && (filtLen == 0 ==> !started)
      ensures |mem[..]| == nbChannels * memAllocSize
      ensures AllCountersOk(lastSample, sampFracNum, magicSamples, nbChannels, denRate,
                            if filtLen == 0 then 0 else filtLen - 1 + bufferSize, memAllocSize, started)
    {
      hide AllCountersOk;
    }

    lemma HeldIs()
      ensures Held() == Bank(lastSample, sampFracNum, magicSamples, mem[..])
      ensures InLockstep() == InStep(Held())
    {
      hide InStep;
    }

    lemma DesignedWell()
      requires 0 <= quality <= 10 && numRate > 0 && denRate > 0 && Designed()
      ensures WellDesigned(filtLen, oversample, cutoff, quality, numRate, denRate)
    {
      hide DesignLength, DesignOversample, DesignCutoff, UseDirect, WellDesigned;
      DesignIsWell(quality, numRate, denRate);
    }

    lemma DesignedLength()
      requires RatesOk()
      ensures filtLen >= 8 && filtLen % 8 == 0 && filtLen % 2 == 0
    {
    }

    lemma IsValid()
      requires bufferSize == 160 && RatesOk() && CountersOk() && mem != sincTable && SizeOk() && TableOk()
      ensures Valid()
    {
    }

    // The zero kernel needs nothing but the memory as it was.
    lemma StillValid()
      requires bufferSize == 160 && numRate > 0 && denRate > 0 && intAdvance == numRate / denRate
               && fracAdvance == numRate % denRate
      requires filtLen % 8 == 0 && resamplerPtr == Zero && mem != sincTable && SizeOk() && TableOk()
      requires AllCountersOk(lastSample, sampFracNum, magicSamples, nbChannels, denRate,
                             if filtLen == 0 then 0 else filtLen - 1 + bufferSize, memAllocSize, started)
      ensures filtLen > 0 ==> Valid()
    {
      hide AllCountersOk, TableOk;
    }

    // A resampler in use: the filter is the one its rates and quality call for, unless the zero
    // kernel stands in for it, and the rates are in lowest terms.
    ghost predicate Ready()
      reads `numRate, `denRate, `intAdvance, `fracAdvance, `filtLen, `resamplerPtr, `oversample, `quality, `cutoff,
            `initialised
      reads `lastSample, `sampFracNum, `magicSamples, `memAllocSize, `started, `mem, `sincTable, sincTable
    {
      && Valid() && initialised && 0 <= quality <= 10
      && (resamplerPtr != Zero ==> Designed())
      && Coprime(numRate, denRate)
    }

    lemma IsReady()
      requires Valid() && initialised && 0 <= quality <= 10 && numRate > 0 && denRate > 0
      requires (resamplerPtr != Zero ==> Designed()) && Coprime(numRate, denRate)
      ensures Ready()
    {
    }

    // What a ready resampler applies is the filter its rates and its quality call for.
    lemma AppliesDesign()
      requires Ready() && resamplerPtr != Zero
      ensures 0 <= quality <= 10 && DesignedFilter(Design(), sinc, quality, numRate, denRate)
      ensures WellDesigned(filtLen, oversample, cutoff, quality, numRate, denRate)
    {
      hide IsDirectTable, IsInterpolatedTable, AllCountersOk, UseDirect, DesignLength, DesignOversample, DesignCutoff,
           Coprime, WellDesigned;
      DesignedWell();
    }

    // The state between allocation and the first filter.
    ghost predicate Blank()
      reads this
    {
      && !initialised && !started && bufferSize == 160 && numRate == denRate == filtLen == memAllocSize == 0
      && sincTable.Length == 0 && SizeOk() && mem != sincTable
      && lastSample == sampFracNum == magicSamples == Repeat(nbChannels, 0)
    }

    lemma BlankSettles()
      requires !started && bufferSize == 160 && numRate > 0 && denRate > 0 && 0 <= quality <= 10
               && filtLen == memAllocSize == 0
      requires SizeOk() && mem != sincTable
      requires lastSample == sampFracNum == magicSamples == Repeat(nbChannels, 0)
      ensures Settled()
    {
    }

    constructor (nbChannels: pos, sinc: Sinc)
      ensures Blank() && quality == -1 && this.nbChannels == nbChannels && this.sinc == sinc
      ensures fresh(mem) && fresh(sincTable) && sincTable.Length == 0
    {
      this.nbChannels, this.sinc, bufferSize := nbChannels, sinc, 160;
      initialised, started := false, false;
      inRate, outRate, numRate, denRate := 0, 0, 0, 0;
      quality, filtLen, memAllocSize, oversample := -1, 0, 0, 0;
      intAdvance, fracAdvance, cutoff := 0, 0, 1.0;
      inStride, outStride := 1, 1;
      resamplerPtr := Zero;
      lastSample, sampFracNum, magicSamples := Repeat(nbChannels, 0), Repeat(nbChannels, 0), Repeat(nbChannels, 0);
      mem, sincTable := new real[0], new real[0];
    }

    // speex_resampler_set_quality.
    method SetQuality(q: int, sincAllocOk: bool, memAllocOk: bool) returns (r: Outcome)
      requires if initialised then Ready() else Blank()
      modifies this`quality, this`intAdvance, this`fracAdvance, this`oversample, this`filtLen, this`cutoff,
               this`sincTable, this`resamplerPtr
      modifies this`mem, this`memAllocSize, this`lastSample, this`magicSamples, sincTable, mem
      ensures if initialised then Ready() else Blank()
      ensures sincTable != old(sincTable) ==> fresh(sincTable)
      ensures mem != old(mem) ==> fresh(mem)
      ensures old(InLockstep()) ==> InLockstep()
      ensures r == InvalidArg <==> !(0 <= q <= 10)
      ensures quality == if 0 <= q <= 10 then q else old(quality)
      ensures quality == old(quality) || !initialised || r == AllocFailed ==>
                Held() == old(Held()) && filtLen == old(filtLen) && memAllocSize == old(memAllocSize)
      ensures quality == old(quality) || !initialised ==> r != AllocFailed && resamplerPtr == old(resamplerPtr)
      ensures r == AllocFailed ==> resamplerPtr == Zero
      ensures initialised && quality != old(quality) ==>
                (r == Success <==> Affordable(quality, numRate, denRate, nbChannels, bufferSize,
                                              old(sincTable.Length), old(memAllocSize), sincAllocOk, memAllocOk))
      ensures r == Success && initialised && quality != old(quality) ==> resamplerPtr != Zero
      ensures r == Success && initialised && quality != old(quality) && started ==>
                Realigned(old(Held()), old(filtLen), old(memAllocSize), Held(), filtLen, memAllocSize)
      ensures r == Success && initialised && quality != old(quality) && !started ==>
                Held() == old(Held()).(mem := Zeros(mem.Length))
    {
      hide TableOk, AllCountersOk, Designed, Realigned, SizeOk, InStep, Affordable;
      if q > 10 || q < 0 {
        return InvalidArg;
      }
      if quality == q {
        return Success;
      }
      quality := q;
      if initialised {
        var ok := UpdateFilter(sincAllocOk, memAllocOk);
        return if ok then Success else AllocFailed;
      }
      return Success;
    }

    // The phases are rescaled to the new denominator; the clamp behind it never fires.
    method RescalePhases(oldDen: pos)
      requires denRate > 0 && |sampFracNum| == nbChannels
      requires forall k :: 0 <= k < nbChannels ==> 0 <= sampFracNum[k] < oldDen
      modifies this`sampFracNum
      ensures |sampFracNum| == nbChannels
      ensures forall k :: 0 <= k < nbChannels ==> sampFracNum[k] == Rescale(old(sampFracNum[k]), denRate, oldDen)
    {
      hide Rescale;
      for i := 0 to nbChannels
        invariant |sampFracNum| == nbChannels
        invariant forall k :: 0 <= k < nbChannels ==>
                    sampFracNum[k]
                    == if k < i then Rescale(old(sampFracNum[k]), denRate, oldDen) else old(sampFracNum[k])
      {
        RescaleIsFloor(sampFracNum[i], denRate, oldDen);
        sampFracNum := sampFracNum[i := Min(Rescale(sampFracNum[i], denRate, oldDen), denRate - 1)];
      }
    }

    predicate SameRates(num: pos, den: pos, inR: nat, outR: nat)
      reads `inRate, `outRate, `numRate, `denRate
    {
      inRate == inR && outRate == outR && numRate == num && denRate == den
    }

    // The rates in lowest terms, and the phases carried over to the new denominator.
    method ReplaceRates(ratioNum: pos, ratioDen: pos, inR: nat, outR: nat)
      requires if initialised then Ready() else Blank()
      modifies this`inRate, this`outRate, this`numRate, this`denRate, this`sampFracNum
      ensures inRate == inR && outRate == outR
      ensures numRate > 0 && denRate > 0 && SameRatio(numRate, denRate, ratioNum, ratioDen) && Coprime(numRate, denRate)
      ensures old(InLockstep()) ==> InLockstep()
      ensures initialised ==> Settled() && old(denRate) > 0 && Held() == Rephased(old(Held()), denRate, old(denRate))
      ensures !initialised ==> Held() == old(Held())
    {
      hide TableOk, AllCountersOk, Designed, SizeOk, Coprime, Rescale, SameRatio, InStep;
      var oldDen := denRate;
      inRate, outRate := inR, outR;
      numRate, denRate := ReduceRatio(ratioNum, ratioDen);
      if oldDen > 0 {
        PhasesBefore(lastSample, sampFracNum, magicSamples, nbChannels, oldDen, filtLen - 1 + bufferSize, memAllocSize,
                     started);
        ghost var z := Held();
        RescalePhases(oldDen);
        RephasedOk(z.last, z.frac, z.magic, nbChannels, denRate, oldDen, filtLen - 1 + bufferSize, memAllocSize,
                   started, sampFracNum);
        assert Held() == Rephased(z, denRate, oldDen);
        if InStep(z) { RephasedInStep(z, denRate, oldDen); }
      }
    }

    /**
     speex_resampler_set_rate_frac: new rates in lowest terms, the phases carried over to the
     new denominator, and a new filter which every channel follows.
     */
    method SetRateFrac(ratioNum: pos, ratioDen: pos, inR: nat, outR: nat, sincAllocOk: bool, memAllocOk: bool)
      returns (r: Outcome)
      requires if initialised then Ready() else Blank()
      modifies this`inRate, this`outRate, this`numRate, this`denRate, this`sampFracNum
      modifies this`intAdvance, this`fracAdvance, this`oversample, this`filtLen, this`cutoff, this`sincTable,
               this`resamplerPtr
      modifies this`mem, this`memAllocSize, this`lastSample, this`magicSamples, sincTable, mem
      ensures initialised ==> Ready() && old(denRate) > 0
      ensures sincTable != old(sincTable) ==> fresh(sincTable)
      ensures mem != old(mem) ==> fresh(mem)
      ensures inRate == inR && outRate == outR
      ensures numRate > 0 && denRate > 0 && SameRatio(numRate, denRate, ratioNum, ratioDen)
      ensures old(InLockstep()) ==> InLockstep()
      ensures r != InvalidArg
      ensures old(SameRates(ratioNum, ratioDen, inR, outR)) ==>
                r == Success && Held() == old(Held()) && filtLen == old(filtLen) && resamplerPtr == old(resamplerPtr)
      ensures !initialised ==>
                r == Success && Held() == old(Held()) && filtLen == memAllocSize == 0 && mem == old(mem)
                    && sincTable == old(sincTable)
                && Coprime(numRate, denRate)
      ensures initialised && !old(SameRates(ratioNum, ratioDen, inR, outR)) ==>
                (r == Success <==> Affordable(quality, numRate, denRate, nbChannels, bufferSize,
                                              old(sincTable.Length), old(memAllocSize), sincAllocOk, memAllocOk))
      ensures r == AllocFailed ==>
                && initialised && resamplerPtr == Zero && Held() == Rephased(old(Held()), denRate, old(denRate))
                && filtLen == old(filtLen) && memAllocSize == old(memAllocSize)
      ensures r == Success && initialised && !old(SameRates(ratioNum, ratioDen, inR, outR)) ==>
                && resamplerPtr != Zero
                && var z := Rephased(old(Held()), denRate, old(denRate));
                   if started then Realigned(z, old(filtLen), old(memAllocSize), Held(), filtLen, memAllocSize)
                   else Held() == z.(mem := Zeros(mem.Length))
    {
      hide TableOk, AllCountersOk, Designed, Realigned, SizeOk, Coprime, Rephased, Settled, InLockstep, Affordable;
      if inRate == inR && outRate == outR && numRate == ratioNum && denRate == ratioDen {
        return Success;
      }
      ReplaceRates(ratioNum, ratioDen, inR, outR);
      if initialised {
        var ok := UpdateFilter(sincAllocOk, memAllocOk);
        return if ok then Success else AllocFailed;
      }
      return Success;
    }

    // Made and not used yet: every channel has seen nothing but silence.
    ghost predicate New()
      reads this, sincTable, mem
    {
      && Ready() && resamplerPtr != Zero && !started
      && Even(Held()) && Chans() == Unused(Design(), nbChannels)
      && InLockstep()
    }

    lemma AllFresh()
      requires Valid() && lastSample == sampFracNum == magicSamples == Repeat(nbChannels, 0)
               && mem[..] == Zeros(mem.Length)
      ensures Even(Held()) && Chans() == Unused(Design(), nbChannels) && InLockstep()
    {
      AtCounter(0);
      hide TableOk, AllCountersOk, Design, Fresh, Unused, ChansIn;
      FreshBank(Design(), Held(), nbChannels, memAllocSize);
    }

    // The last step of initialising.
    method Begin()
      requires 0 <= quality <= 10 && Valid() && Designed() && resamplerPtr != Zero && !started
               && Coprime(numRate, denRate)
      requires lastSample == sampFracNum == magicSamples == Repeat(nbChannels, 0) && mem[..] == Zeros(mem.Length)
      modifies this`initialised
      ensures New()
    {
      hide TableOk, AllCountersOk, Designed, SizeOk, Coprime, Fresh, Chans, Design, Repeat, Unused;
      initialised := true;
      AllFresh();
    }

    // speex_resampler_skip_zeros: the first output is centred on the first input sample.
    method SkipZeros()
      requires Ready()
      modifies this`lastSample
      ensures Ready() && Design() == old(Design())
      ensures lastSample == Repeat(nbChannels, filtLen / 2)
      ensures old(InLockstep()) ==> InLockstep()
    {
      hide TableOk, AllCountersOk, SizeOk, Coprime, Design, Designed;
      AtAll();
      ghost var last := lastSample;
      for i := 0 to nbChannels
        invariant |lastSample| == nbChannels && forall k :: 0 <= k < i ==> lastSample[k] == filtLen / 2
      {
        lastSample := lastSample[i := filtLen / 2];
      }
      Skipped(last, lastSample, sampFracNum, magicSamples, nbChannels, denRate, filtLen - 1 + bufferSize, memAllocSize,
              started);
    }
  }

  /**
   speex_resampler_init_frac: a resampler whose channels have all seen nothing but silence, or
   null when the quality is out of range or memory cannot be had.
   */
  method InitFrac(nbChannels: pos, ratioNum: pos, ratioDen: pos, inR: nat, outR: nat, quality: int, sinc: Sinc,
                  sincAllocOk: bool, memAllocOk: bool)
    returns (st: Resampler?, err: Outcome, ghost num: pos, ghost den: pos)
    ensures 0 <= quality <= 10 ==>
              && SameRatio(num, den, ratioNum, ratioDen) && Coprime(num, den)
              && (err == Success <==> Affordable(quality, num, den, nbChannels, 160, 0, 0, sincAllocOk, memAllocOk))
    ensures err == InvalidArg <==> !(0 <= quality <= 10)
    ensures st == null <==> err != Success
    ensures st != null ==>
              && fresh(st) && fresh(st.mem) && fresh(st.sincTable)
              && st.New()
              && st.nbChannels == nbChannels && st.quality == quality && st.sinc == sinc
              && st.numRate == num && st.denRate == den
  {
    hide AllCountersOk, Realigned, Coprime, Rephased, SameRatio, Fresh, Affordable, Resampler.TableOk,
         Resampler.Designed, Resampler.SizeOk, Resampler.Settled, Resampler.Chans, Resampler.Design;
    if quality > 10 || quality < 0 {
      return null, InvalidArg, 1, 1;
    }
    st := new Resampler(nbChannels, sinc);
    err := st.SetQuality(quality, sincAllocOk, memAllocOk);
    err := st.SetRateFrac(ratioNum, ratioDen, inR, outR, sincAllocOk, memAllocOk);
    num, den := st.numRate, st.denRate;
    st.BlankSettles();
    var ok := st.UpdateFilter(sincAllocOk, memAllocOk);
    if ok {
      st.Begin();
    } else {
      st, err := null, AllocFailed;
    }
  }
}
