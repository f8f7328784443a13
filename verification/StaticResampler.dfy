/** staticResampler: a whole buffer of frames resampled at once, 1024 frames at a time. */
module StaticResampler {
  import opened Arithmetic
  import opened Polyphase
  import opened Channel
  import opened Strided
  import opened FilterDesign
  import opened SpeexResampler
  import opened Frames
  import opened StreamResampler

  // What each channel of filter f sees: silence, then its part of the buffer.
  function Whole(f: Filter, data: seq<real>, frames: nat, d: pos): (xs: seq<seq<real>>)
    ensures |xs| == d
  {
    seq(d, c requires 0 <= c < d => Zeros(f.taps - 1) + Gather(data, c, d, frames))
  }

  lemma WholeStart(f: Filter, data: seq<real>, frames: nat, d: pos)
    ensures AllFollow(f, Unused(f, d), Whole(f, data, frames, d), f.taps - 1, 0)
  {
    forall c: nat | c < d
      ensures Follows(f, Fresh(f), Whole(f, data, frames, d)[c], 0, f.taps - 1, 0)
    {
      FreshFollows(f, Gather(data, c, d, frames));
    }
  }

  // Frames k to k + n of the buffer are what every channel's stream goes on with after k of them.
  lemma WholeNext(f: Filter, data: seq<real>, frames: nat, d: pos, k: nat, n: nat)
    requires k + n <= frames && Span(frames, d) <= |data|
    ensures Span(k, d) + Span(n, d) <= |data|
    ensures Upcoming(Whole(f, data, frames, d), f.taps - 1 + k, n, Samples(data), Span(k, d))
  {
    MulMono(0, k, d);
    Distribute(k, n, d);
    MulMono(k + n, frames, d);
    hide Gather, Zeros;
    forall c: nat | c < d
      ensures Gather(data, k * d + c, d, n)
              == (Zeros(f.taps - 1) + Gather(data, c, d, frames))[f.taps - 1 + k..f.taps - 1 + k + n]
    {
      OfferedSlice(Samples(data), c, d, frames, k, n);
      PastZeros(f.taps - 1, Gather(data, c, d, frames), k, n);
    }
  }

  // With all the input read, all outputs have been made.
  lemma WholeDone(f: Filter, cs: seq<Channel>, data: seq<real>, frames: nat, d: pos, next: nat, made: nat)
    requires AllFollow(f, cs, Whole(f, data, frames, d), next, made)
    ensures made <= Avail(f, 0, frames)
    ensures next == f.taps - 1 + frames ==> made == Avail(f, 0, frames)
  {
    var x := Zeros(f.taps - 1) + Gather(data, 0, d, frames);
    assert Whole(f, data, frames, d)[0] == x;
    assert Follows(f, cs[0], x, 0, next, made);
    MulMono(0, cs[0].last, f.den);
    if next == |x| { FollowsFromStart(f, cs[0], x, next, made); }
  }

  // The number of outputs is the rounded-up number of input frames at the output rate, whatever
  // multiple of the ratio the rates are.
  lemma AvailOfRates(f: Filter, n: nat, inputSr: pos, outputSr: pos)
    requires SameRatio(f.num, f.den, inputSr, outputSr)
    ensures Avail(f, 0, n) == (n * outputSr + inputSr - 1) / inputSr
  {
    var g := f.(num := inputSr, den := outputSr);
    var a := Avail(g, 0, n);
    MulMono(0, n, outputSr);
    assert a == (n * outputSr + inputSr - 1) / inputSr;
    AvailExact(g, 0, n, a);
    SameOrder(f, n, a, inputSr, outputSr);
    if a > 0 {
      AvailExact(g, 0, n, a - 1);
      SameOrder(f, n, a - 1, inputSr, outputSr);
    }
    AvailUnique(f, 0, n, a);
  }

  lemma SameOrder(f: Filter, n: nat, m: nat, inputSr: pos, outputSr: pos)
    requires SameRatio(f.num, f.den, inputSr, outputSr)
    ensures m * f.num < n * f.den <==> m * inputSr < n * outputSr
  {
    assert (m * f.num) * outputSr == (m * inputSr) * f.den;
    assert (n * f.den) * outputSr == (n * outputSr) * f.den;
    CompareScaled(m * f.num, n * f.den, outputSr);
    CompareScaled(m * inputSr, n * outputSr, f.den);
  }

  lemma CompareScaled(a: int, b: int, d: pos)
    ensures a < b <==> a * d < b * d
  {
    if a < b {
      MulMono(a + 1, b, d);
      Distribute(a, 1, d);
    } else {
      MulMono(b, a, d);
    }
  }

  // The buffer, which is a little larger than the ratio calls for, is never full.
  lemma RoomForAll(f: Filter, frames: nat)
    ensures Avail(f, 0, frames) <= frames * f.den / f.num + 1
  {
    var n := frames * f.den;
    MulMono(0, frames, f.den);
    DivMod(n, f.num);
    DivMono(n + f.num - 1, n + f.num, f.num);
    DivShift(n, -1, f.num);
  }

  lemma SizeEnough(frames: nat, d: pos, num: pos, den: pos)
    ensures frames * den / num >= 0
    ensures (frames * den / num + 200) * d <= frames * d * den / num + d * 200
  {
    var q := frames * den / num;
    MulMono(0, frames, den);
    StartsBefore(frames * den, 0, num);
    DivMod(frames * den, num);
    assert (q * d) * num == (q * num) * d;
    assert (frames * d) * den == (frames * den) * d;
    MulMono(q * num, frames * den, d);
    DivMono((q * d) * num, frames * d * den, num);
    DivModUnique((q * d) * num, q * d, 0, num);
    Distribute(q, 200, d);
  }

  // One call with room for everything puts out the same as any number of smaller ones.
  lemma Unchunked(f: Filter, input: seq<real>, room: nat, xlen: pos)
    requires room >= Avail(f, 0, |input|)
    ensures Process(f, Fresh(f), input, room, xlen).out
            == Outputs(f, Zeros(f.taps - 1) + input, 0, Avail(f, 0, |input|))
  {
    HeldOut(f, Fresh(f), input, room, xlen);
  }

  /**
   staticResampler: for unequal rates the whole buffer is resampled, to exactly as many frames
   as the ratio calls for, which fit the space set aside.
   */
  method StaticResample(inputSr: pos, outputSr: pos, channels: pos, frames: nat, data: seq<real>, sinc: Sinc,
                        outAllocOk: bool, sincAllocOk: bool, memAllocOk: bool)
    returns (outData: array?<real>, outLength: nat, ghost f: Filter, ghost num: pos, ghost den: pos)
    requires 0 <= frames * channels <= |data|
    ensures outData != null ==> fresh(outData)
    ensures outData != null && inputSr == outputSr ==> outLength == frames && outData[..] == data[..frames * channels]
    ensures inputSr == outputSr ==> (outData != null <==> outAllocOk)
    ensures inputSr != outputSr ==>
              && SameRatio(num, den, inputSr, outputSr) && Coprime(num, den)
              && (outData != null <==> Affordable(10, num, den, channels, 160, 0, 0, sincAllocOk, memAllocOk))
    ensures outData != null && inputSr != outputSr ==>
              && DesignedFilter(f, sinc, 10, num, den)
              && outLength == Avail(f, 0, frames) && outLength == (frames * outputSr + inputSr - 1) / inputSr
              && 0 <= outLength * channels <= outData.Length
              && Framed(f, Whole(f, data, frames, channels), 0, outLength, 1.0, channels, 0, Zeros(outData.Length),
                        outData[..])
  {
    f, num, den := Filter(1, 1, 1, Silent), 1, 1;
    hide Coprime, Affordable, IsDirectTable, IsInterpolatedTable, UseDirect, DesignLength, DesignOversample,
         DesignCutoff;
    if inputSr == outputSr {
      if !outAllocOk {
        return null, 0, f, num, den;
      }
      var o := new real[frames * channels];
      for i := 0 to frames * channels
        invariant forall k :: 0 <= k < i ==> o[k] == data[k]
      {
        o[i] := data[i];
      }
      return o, frames, f, num, den;
    }
    var spx, err;
    spx, err, num, den := InitFrac(channels, inputSr, outputSr, inputSr, outputSr, 10, sinc, sincAllocOk, memAllocOk);
    if spx == null {
      return null, 0, f, num, den;
    }
    f := spx.Design();
    spx.AppliesDesign();
    hide *;
    outData, outLength := ResampleNew(spx, channels, frames, data);
    AvailOfRates(f, frames, inputSr, outputSr);
  }

  // The space set aside, and the chunk loop.
  method ResampleNew(spx: Resampler, channels: pos, frames: nat, data: seq<real>)
    returns (o: array<real>, outLength: nat)
    requires spx.New() && spx.nbChannels == channels && frames * channels <= |data|
    modifies spx`lastSample, spx`sampFracNum, spx`magicSamples, spx`started, spx`inStride, spx`outStride, spx.mem
    ensures fresh(o) && old(spx.RatesOk())
    ensures var f := old(spx.Design());
            && outLength == Avail(f, 0, frames) && 0 <= outLength * channels <= o.Length
            && Framed(f, Whole(f, data, frames, channels), 0, outLength, 1.0, channels, 0, Zeros(o.Length), o[..])
  {
    hide Framed, Whole, Avail, AllFollow, Resampler.Design, Resampler.Chans, Resampler.TableOk;
    var numer, denom: pos := spx.numRate, spx.denRate;
    SizeEnough(frames, channels, numer, denom);
    var size: nat := frames * channels * denom / numer + channels * 200;
    var room: nat := frames * denom / numer + 200;
    o := new real[size](_ => 0.0);
    outLength := Fill(spx, channels, frames, data, o, room);
    MulMono(outLength, room, channels);
    MulMono(0, outLength, channels);
  }

  // The resampler has read k frames of the buffer, and o holds what it has made of them.
  ghost predicate Reading(spx: Resampler, f: Filter, data: seq<real>, frames: nat, k: int, made: int, o: array<real>)
    reads spx, spx.mem, spx.sincTable, o
  {
    && 0 <= k <= frames && 0 <= made
    && PartWay(spx, f, Whole(f, data, frames, spx.nbChannels), f.taps - 1 + k, 0, made, 0, Zeros(o.Length), o)
  }

  lemma ReadingStart(spx: Resampler, data: seq<real>, frames: nat, o: array<real>)
    requires spx.New() && o != spx.mem && o != spx.sincTable && o[..] == Zeros(o.Length)
    ensures Reading(spx, spx.Design(), data, frames, 0, 0, o)
  {
    WholeStart(spx.Design(), data, frames, spx.nbChannels);
    FramedNone(spx.Design(), Whole(spx.Design(), data, frames, spx.nbChannels), 0, 1.0, spx.nbChannels, 0, o[..]);
    hide AllFollow, Framed, Whole, Resampler.Ready, Resampler.Design;
  }

  lemma ReadingBound(spx: Resampler, f: Filter, data: seq<real>, frames: nat, k: int, made: int, o: array<real>)
    requires Reading(spx, f, data, frames, k, made, o)
    ensures 0 <= made <= Avail(f, 0, frames)
    ensures k == frames ==> made == Avail(f, 0, frames)
  {
    WholeDone(f, spx.Chans(), data, frames, spx.nbChannels, f.taps - 1 + k, made);
  }

  // The samples are those of every filter so designed: which one it was makes no difference.
  lemma AnyDesign(f: Filter, g: Filter, sinc: Sinc, quality: int, num: pos, den: pos, data: seq<real>, frames: nat,
                  d: pos, n: nat, was: seq<real>, now: seq<real>)
    requires 0 <= quality <= 10
    requires DesignedFilter(f, sinc, quality, num, den) && DesignedFilter(g, sinc, quality, num, den)
    requires Framed(f, Whole(f, data, frames, d), 0, n, 1.0, d, 0, was, now)
    ensures Framed(g, Whole(g, data, frames, d), 0, n, 1.0, d, 0, was, now)
  {
    assert f.taps == g.taps && f.num == g.num && f.den == g.den;
    assert Whole(f, data, frames, d) == Whole(g, data, frames, d);
    hide Slot, Tap, DesignedFilter, Whole;
    var xs := Whole(f, data, frames, d);
    forall k: nat, c: nat | c < d && k < n && Slot(0, k, d, c) < |was|
      ensures Y(f, xs[c], Ahead(f, 0, 0 + k)) == Y(g, xs[c], Ahead(g, 0, 0 + k))
    {
      DivMod(Ahead(f, 0, k), den);
      assert DesignedFilter(f, sinc, quality, num, den);
      SameY(f, g, sinc, quality, num, den, xs[c], Ahead(f, 0, k));
    }
  }

  lemma SameY(f: Filter, g: Filter, sinc: Sinc, quality: int, num: pos, den: pos, x: seq<real>, t: int)
    requires 0 <= quality <= 10
    requires DesignedFilter(f, sinc, quality, num, den) && DesignedFilter(g, sinc, quality, num, den)
    ensures Y(f, x, t) == Y(g, x, t)
  {
    DivMod(t, den);
    DesignDetermines(f, g, sinc, quality, num, den, t % den, x, t / den);
    hide Tap;
  }

  // The chunk loop.
  method Fill(spx: Resampler, channels: pos, frames: nat, data: seq<real>, o: array<real>, room: nat)
    returns (outLength: nat)
    requires spx.New() && spx.nbChannels == channels && o != spx.mem && o != spx.sincTable
    requires frames * channels <= |data| && room * channels <= o.Length
             && room == frames * spx.denRate / spx.numRate + 200
    requires o[..] == Zeros(o.Length)
    modifies spx`lastSample, spx`sampFracNum, spx`magicSamples, spx`started, spx`inStride, spx`outStride, spx.mem, o
    ensures spx.Valid() && spx.Design() == old(spx.Design())
    ensures outLength == Avail(spx.Design(), 0, frames) && outLength <= room
    ensures Framed(spx.Design(), Whole(spx.Design(), data, frames, channels), 0, outLength, 1.0, channels, 0,
                   Zeros(o.Length), o[..])
  {
    ghost var f := spx.Design();
    ReadingStart(spx, data, frames, o);
    RoomForAll(f, frames);
    outLength := ReadAll(spx, f, frames, data, o, room);
    hide AllFollow, Framed, Whole, Avail, Resampler.Valid;
    ReadingBound(spx, f, data, frames, frames, outLength, o);
  }

  method ReadAll(spx: Resampler, ghost f: Filter, frames: nat, data: seq<real>, o: array<real>, room: nat)
    returns (outLength: nat)
    requires Reading(spx, f, data, frames, 0, 0, o)
    requires Span(frames, spx.nbChannels) <= |data| && Span(room, spx.nbChannels) <= o.Length
             && Avail(f, 0, frames) < room
    modifies spx`lastSample, spx`sampFracNum, spx`magicSamples, spx`started, spx`inStride, spx`outStride, spx.mem, o
    ensures Reading(spx, f, data, frames, frames, outLength, o)
  {
    hide Reading, Avail;
    outLength := 0;
    var remainingIn, remainingOut := frames, room;
    while remainingIn > 0 && remainingOut > 0
      invariant 0 <= remainingIn <= frames && 0 <= remainingOut == room - outLength
      invariant Reading(spx, f, data, frames, frames - remainingIn, outLength, o)
      decreases remainingIn + remainingOut
    {
      var consumed, written := Chunk(spx, f, frames, data, o, room, remainingIn, outLength);
      remainingIn, remainingOut := remainingIn - consumed, remainingOut - written;
      outLength := outLength + written;
    }
    ReadingBound(spx, f, data, frames, frames - remainingIn, outLength, o);
  }

  method Chunk(spx: Resampler, ghost f: Filter, frames: nat, data: seq<real>, o: array<real>, room: nat,
               remainingIn: pos, outLength: nat)
    returns (consumed: nat, written: nat)
    requires remainingIn <= frames && Reading(spx, f, data, frames, frames - remainingIn, outLength, o)
    requires Span(frames, spx.nbChannels) <= |data| && Span(room, spx.nbChannels) <= o.Length && outLength < room
    modifies spx`lastSample, spx`sampFracNum, spx`magicSamples, spx`started, spx`inStride, spx`outStride, spx.mem, o
    ensures consumed <= remainingIn && written <= room - outLength && consumed + written > 0
    ensures Reading(spx, f, data, frames, frames - remainingIn + consumed, outLength + written, o)
  {
    hide *;
    var k := frames - remainingIn;
    var n, most := Min(1024, remainingIn), Min(1024, room - outLength);
    ChunkFits(frames, k, n, room, outLength, most);
    WholeNext(f, data, frames, spx.nbChannels, k, n);
    ChunkRoom(outLength, room, most, spx.nbChannels);
    ReadingIs(spx, f, data, frames, k, outLength, o);
    ghost var xs := Whole(f, data, frames, spx.nbChannels);
    consumed, written := Advance(spx, Samples(data), Span(k, spx.nbChannels), n, o, 0, outLength, most,
                                 f, xs, f.taps - 1 + k, 0, Zeros(o.Length));
    IsReading(spx, f, data, frames, k + consumed, outLength + written, o);
  }

  lemma ChunkFits(frames: nat, k: nat, n: int, room: nat, outLength: nat, most: int)
    requires k < frames && outLength < room && n == Min(1024, frames - k) && most == Min(1024, room - outLength)
    ensures 0 < n && 0 < most && k + n <= frames && outLength + most <= room
  {
  }

  lemma ReadingIs(spx: Resampler, f: Filter, data: seq<real>, frames: nat, k: nat, made: nat, o: array<real>)
    requires Reading(spx, f, data, frames, k, made, o)
    ensures PartWay(spx, f, Whole(f, data, frames, spx.nbChannels), f.taps - 1 + k, 0, made, 0, Zeros(o.Length), o)
  {
  }

  lemma IsReading(spx: Resampler, f: Filter, data: seq<real>, frames: nat, k: nat, made: nat, o: array<real>)
    requires k <= frames
    requires PartWay(spx, f, Whole(f, data, frames, spx.nbChannels), f.taps - 1 + k, 0, made, 0, Zeros(o.Length), o)
    ensures Reading(spx, f, data, frames, k, made, o)
  {
  }

  lemma ChunkRoom(n: nat, room: nat, most: nat, d: pos)
    requires n + most <= room
    ensures Slot(0, n, d, 0) + Span(most, d) <= Span(room, d)
  {
    RoomLeft(0, n, room, d);
    MulMono(most, room - n, d);
  }
}
