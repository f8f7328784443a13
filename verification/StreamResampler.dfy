/**
 ResamplerImplementation: a queue of input blocks in front of a Speex resampler. Reading adds a
 block; writing plays the queue through the resampler until it is empty or the caller has enough.
 */
module StreamResampler {
  import opened Arithmetic
  import opened Polyphase
  import opened Channel
  import opened Strided
  import opened FilterDesign
  import opened Realigning
  import opened SpeexResampler
  import opened Frames

  // The slight attenuation that keeps the resampler's overshoot from clipping.
  const ATTENUATION: real := 0.94

  // The queue is what is left of the blocks fed, `offset` samples of its first block being gone.
  ghost predicate Queued(queue: seq<seq<real>>, fed: seq<seq<real>>, frames: pos, d: pos, offset: nat) {
    && BlocksOk(fed, frames, d)
    && |queue| <= |fed| && queue == fed[|fed| - |queue|..]
    && offset % d == 0 && offset < frames * d
    && (queue == [] ==> offset == 0)
  }

  // The stream sample the resampler is to be offered next.
  function NextOf(taps: nat, queue: seq<seq<real>>, fed: seq<seq<real>>, frames: pos, d: pos, offset: nat): (next: int)
    requires |queue| <= |fed|
    ensures next >= taps - 1
  {
    MulMono(0, |fed| - |queue|, frames);
    StartsBefore(offset, 0, d);
    taps - 1 + (|fed| - |queue|) * frames + offset / d
  }

  lemma OffsetFrames(offset: nat, frames: pos, d: pos)
    requires offset % d == 0 && offset < frames * d
    ensures 0 <= offset / d < frames && offset == (offset / d) * d
    ensures offset + (frames - offset / d) * d == frames * d
  {
    DivMod(offset, d);
    StartsBefore(offset, frames, d);
    StartsBefore(offset, 0, d);
    Distribute(frames, offset / d, d);
  }

  // The rest of the first block in the queue is what every channel's stream goes on with.
  lemma QueuedHead(f: Filter, queue: seq<seq<real>>, fed: seq<seq<real>>, frames: pos, d: pos, offset: nat)
    requires Queued(queue, fed, frames, d, offset) && queue != []
    ensures |queue| <= |fed|
    ensures var n := frames - offset / d;
            var next := NextOf(f.taps, queue, fed, frames, d, offset);
            var xs := Streams(f, fed, frames, d);
            && 0 < n && offset + Span(n, d) <= |queue[0]|
            && Upcoming(xs, next, n, Samples(queue[0]), offset)
  {
    var i, j := |fed| - |queue|, offset / d;
    OffsetFrames(offset, frames, d);
    var n := frames - j;
    var next := NextOf(f.taps, queue, fed, frames, d, offset);
    assert queue[0] == fed[i];
    hide Gather, ChannelOf, Zeros;
    forall c: nat | c < d
      ensures next + n <= |Stream(f, fed, frames, d, c)|
      ensures Gather(queue[0], offset + c, d, n) == Stream(f, fed, frames, d, c)[next..next + n]
    {
      ChannelSlice(fed, frames, d, c, i, j);
      PastZeros(f.taps - 1, ChannelOf(fed, frames, d, c), i * frames + j, n);
    }
  }

  lemma PastZeros(h: nat, x: seq<real>, k: nat, n: nat)
    requires k + n <= |x|
    ensures (Zeros(h) + x)[h + k..h + k + n] == x[k..k + n]
  {
  }

  // After a call that took `taken` of its frames, the first block stays or, when it is used up, goes.
  lemma QueuedStep(taps: nat, queue: seq<seq<real>>, fed: seq<seq<real>>, frames: pos, d: pos, offset: nat, taken: nat,
                   queue': seq<seq<real>>, offset': nat)
    requires Queued(queue, fed, frames, d, offset) && queue != [] && taken <= frames - offset / d
    requires if offset + Span(taken, d) == Span(frames, d) then queue' == queue[1..] && offset' == 0
             else queue' == queue && offset' == offset + Span(taken, d)
    ensures |queue'| <= |fed| && Queued(queue', fed, frames, d, offset')
    ensures NextOf(taps, queue', fed, frames, d, offset') == NextOf(taps, queue, fed, frames, d, offset) + taken
    ensures queue' == queue[1..] || (queue' == queue && offset' >= offset && (taken > 0 ==> offset' > offset))
  {
    OffsetFrames(offset, frames, d);
    var j := offset / d;
    Distribute(j, taken, d);
    MulMono(0, taken, d);
    if taken > 0 { MulMono(1, taken, d); }
    MulMono(j + taken, frames, d);
    DivModUnique((j + taken) * d, j + taken, 0, d);
    DivModUnique(frames * d, frames, 0, d);
    Distribute(|fed| - |queue|, 1, frames);
    assert 0 % d == 0 && 0 / d == 0 && 0 < frames * d by { DivModUnique(0, 0, 0, d); MulMono(1, frames, d); }
  }

  lemma QueuedMore(taps: nat, queue: seq<seq<real>>, fed: seq<seq<real>>, frames: pos, d: pos, offset: nat,
                   b: seq<real>)
    requires Queued(queue, fed, frames, d, offset) && |b| == frames * d
    ensures Queued(queue + [b], fed + [b], frames, d, offset)
    ensures NextOf(taps, queue + [b], fed + [b], frames, d, offset) == NextOf(taps, queue, fed, frames, d, offset)
  {
  }

  // All blocks used up, all outputs made: no sample is left that another output could start before.
  lemma NothingLeft(f: Filter, cs: seq<Channel>, fed: seq<seq<real>>, frames: pos, d: pos, made: nat)
    requires AllFollow(f, cs, Streams(f, fed, frames, d), NextOf(f.taps, [], fed, frames, d, 0), made)
    ensures made == Avail(f, 0, |fed| * frames)
  {
    var x := Stream(f, fed, frames, d, 0);
    assert Streams(f, fed, frames, d)[0] == x;
    assert 0 / d == 0;
    assert Follows(f, cs[0], x, 0, |x|, made);
    MulMono(0, cs[0].last, f.den);
    FollowsFromStart(f, cs[0], x, |x|, made);
  }

  lemma NoMoreThan(f: Filter, cs: seq<Channel>, fed: seq<seq<real>>, frames: pos, d: pos, next: nat, made: nat)
    requires AllFollow(f, cs, Streams(f, fed, frames, d), next, made)
    ensures made <= Avail(f, 0, |fed| * frames)
  {
    assert Follows(f, cs[0], Streams(f, fed, frames, d)[0], 0, next, made);
  }

  lemma FramedScaled(f: Filter, xs: seq<seq<real>>, made: nat, n: nat, g: real, d: pos, o: nat, was: seq<real>,
                     now: seq<real>, scaled: seq<real>)
    requires Framed(f, xs, made, n, 1.0, d, o, was, now) && |scaled| == |now|
    requires forall i: nat :: i < |now| ==> scaled[i] == if o <= i < Slot(o, n, d, 0) then now[i] * g else now[i]
    ensures Framed(f, xs, made, n, g, d, o, was, scaled)
  {
    hide Y, Slot, Ahead;
    forall i: nat | i < o && i < |was|
      ensures scaled[i] == was[i]
    {
    }
    forall k: nat, c: nat | c < d && Slot(o, k, d, c) < |was|
      ensures scaled[Slot(o, k, d, c)]
              == if k < n then Y(f, xs[c], Ahead(f, 0, made + k)) * g else was[Slot(o, k, d, c)]
    {
      SlotOrder(o, n, k, d, c);
      SlotIs(o, k, d, c);
      MulMono(0, k, d);
    }
  }

  class ResamplerImplementation {
    const inputFrameCount: pos
    const inputChannels: pos
    const spx: Resampler
    var queue: seq<seq<real>>
    var doneQueue: seq<seq<real>>
    var offset: nat

    // All blocks ever read, and how many frames have been written.
    ghost var fed: seq<seq<real>>
    ghost var made: nat

    ghost predicate SpxOk()
      reads spx, spx.mem, spx.sincTable
    {
      && spx.Ready() && spx.resamplerPtr != Zero && spx.nbChannels == inputChannels
      && Even(spx.Held())
    }

    // Every channel of the resampler is n outputs into its stream of the blocks, and is to be
    // offered sample `next` of it.
    ghost predicate Playing(blocks: seq<seq<real>>, next: int, n: nat)
      reads spx, spx.mem, spx.sincTable
    {
      && SpxOk() && next >= 0
      && AllFollow(spx.Design(), spx.Chans(), Streams(spx.Design(), blocks, inputFrameCount, inputChannels), next, n)
    }

    // The queue holds exactly what the resampler has not been offered yet.
    ghost predicate Valid()
      reads this, spx, spx.mem, spx.sincTable
    {
      && Queued(queue, fed, inputFrameCount, inputChannels, offset)
      && Playing(fed, NextOf(spx.filtLen, queue, fed, inputFrameCount, inputChannels, offset), made)
    }

    constructor (inputFrameCount: pos, spx: Resampler)
      requires spx.New()
      ensures Valid() && fed == [] && made == 0 && queue == [] && this.spx == spx
      ensures this.inputFrameCount == inputFrameCount && this.inputChannels == spx.nbChannels
    {
      this.inputFrameCount, this.inputChannels, this.spx := inputFrameCount, spx.nbChannels, spx;
      queue, doneQueue, offset, fed, made := [], [], 0, [], 0;
      new;
      UnusedFollow(spx.Design(), inputFrameCount, spx.nbChannels);
      assert 0 < inputFrameCount * spx.nbChannels by { MulMono(1, inputFrameCount, spx.nbChannels); }
      hide AllFollow, Streams, Resampler.Ready, Resampler.Design, Resampler.Chans;
    }

    lemma QueuedIs()
      requires Valid()
      ensures |queue| <= |fed| && spx.RatesOk()
    {
    }

    lemma PlayMore(b: seq<real>, next: int)
      requires Playing(fed, next, made)
      ensures Playing(fed + [b], next, made)
    {
      MoreFollow(spx.Design(), spx.Chans(), fed, b, inputFrameCount, inputChannels, next, made);
      hide AllFollow, Streams;
    }

    // read: a copy of the block goes to the end of the queue, in a used buffer if there is one.
    method Read(source: array<real>)
      requires Valid() && source.Length >= inputFrameCount * inputChannels
      modifies this`queue, this`doneQueue, this`fed
      ensures Valid() && inputFrameCount * inputChannels >= 0
      ensures var block := source[..inputFrameCount * inputChannels];
              queue == old(queue) + [block] && fed == old(fed) + [block]
      ensures doneQueue == if old(doneQueue) == [] then [] else old(doneQueue)[1..]
    {
      MulMono(0, inputFrameCount, inputChannels);
      var buff := source[..inputFrameCount * inputChannels];
      PlayMore(buff, NextOf(spx.filtLen, queue, fed, inputFrameCount, inputChannels, offset));
      QueuedMore(spx.filtLen, queue, fed, inputFrameCount, inputChannels, offset, buff);
      hide Playing, Queued, NextOf;
      if doneQueue != [] {
        doneQueue := doneQueue[1..];
      }
      queue := queue + [buff];
      fed := fed + [buff];
    }

    // The first block has given `taken` more frames; when it is used up its buffer is kept.
    method Take(taken: nat, more: nat)
      requires Queued(queue, fed, inputFrameCount, inputChannels, offset) && queue != [] && |queue| <= |fed|
      requires taken <= inputFrameCount - offset / inputChannels
      requires Playing(fed, NextOf(spx.filtLen, queue, fed, inputFrameCount, inputChannels, offset) + taken,
                       made + more)
      modifies this`queue, this`doneQueue, this`offset, this`made
      ensures Valid() && made == old(made) + more
      ensures || queue == old(queue)[1..]
              || (queue == old(queue) && offset >= old(offset) && (taken > 0 ==> offset > old(offset)))
      ensures |queue| + |doneQueue| == old(|queue| + |doneQueue|)
    {
      hide Playing, Queued, NextOf, Span;
      ghost var q, o := queue, offset;
      made := made + more;
      offset := offset + Span(taken, inputChannels);
      if offset == Span(inputFrameCount, inputChannels) {
        doneQueue := doneQueue + [queue[0]];
        queue := queue[1..];
        offset := 0;
      }
      QueuedStep(spx.filtLen, q, fed, inputFrameCount, inputChannels, o, taken, queue, offset);
    }

    // The call for what is left of the first block in the queue.
    method Feed(dest: array<real>, d0: nat, maxFrameCount: nat, count: nat, ghost made0: nat, ghost was: seq<real>)
      returns (taken: nat, more: nat)
      requires Valid() && dest != spx.mem && dest != spx.sincTable && d0 + maxFrameCount * inputChannels <= dest.Length
      requires count < maxFrameCount && queue != [] && |queue| <= |fed| && made == made0 + count
      requires Framed(spx.Design(), Streams(spx.Design(), fed, inputFrameCount, inputChannels), made0, count, 1.0,
                      inputChannels, d0, was, dest[..])
      modifies spx`lastSample, spx`sampFracNum, spx`magicSamples, spx`started, spx`inStride, spx`outStride, spx.mem,
               dest
      ensures Playing(fed, NextOf(spx.filtLen, queue, fed, inputFrameCount, inputChannels, offset) + taken, made + more)
      ensures spx.Design() == old(spx.Design())
      ensures taken <= inputFrameCount - offset / inputChannels && more <= maxFrameCount - count && taken + more > 0
      ensures Framed(spx.Design(), Streams(spx.Design(), fed, inputFrameCount, inputChannels), made0, count + more, 1.0,
                     inputChannels, d0, was, dest[..])
    {
      hide *;
      ReadyToFeed(dest, d0, maxFrameCount, count, made0, was);
      ghost var f, xs := spx.Design(), Streams(spx.Design(), fed, inputFrameCount, inputChannels);
      ghost var next := NextOf(spx.filtLen, queue, fed, inputFrameCount, inputChannels, offset);
      var remainingInputFrames := inputFrameCount - offset / inputChannels;
      taken, more := Advance(spx, Samples(queue[0]), offset, remainingInputFrames, dest, d0, count,
                             maxFrameCount - count, f, xs, next, made0, was);
      StillPlaying(f, next + taken, made0, count + more, d0, was, dest);
    }

    lemma ReadyToFeed(dest: array<real>, d0: nat, maxFrameCount: nat, count: nat, made0: nat, was: seq<real>)
      requires Valid() && dest != spx.mem && dest != spx.sincTable && d0 + maxFrameCount * inputChannels <= dest.Length
      requires count < maxFrameCount && queue != [] && |queue| <= |fed| && made == made0 + count
      requires Framed(spx.Design(), Streams(spx.Design(), fed, inputFrameCount, inputChannels), made0, count, 1.0,
                      inputChannels, d0, was, dest[..])
      ensures spx.Ready() && spx.resamplerPtr != Zero && spx.nbChannels == inputChannels && spx.RatesOk()
      ensures NextOf(spx.filtLen, queue, fed, inputFrameCount, inputChannels, offset) >= 0
      ensures var xs := Streams(spx.Design(), fed, inputFrameCount, inputChannels);
              var next := NextOf(spx.filtLen, queue, fed, inputFrameCount, inputChannels, offset);
              var n := inputFrameCount - offset / inputChannels;
              && PartWay(spx, spx.Design(), xs, next, made0, count, d0, was, dest)
              && 0 < n && offset + Span(n, inputChannels) <= |queue[0]|
              && Upcoming(xs, next, n, Samples(queue[0]), offset)
              && Slot(d0, count, inputChannels, 0) + Span(maxFrameCount - count, inputChannels) <= dest.Length
    {
      hide AllFollow, Framed, Upcoming, Streams, Resampler.Chans;
      QueuedHead(spx.Design(), queue, fed, inputFrameCount, inputChannels, offset);
      RoomLeft(d0, count, maxFrameCount, inputChannels);
    }

    lemma StillPlaying(f: Filter, next: nat, made0: nat, n: nat, d0: nat, was: seq<real>, dest: array<real>)
      requires spx.Ready() && spx.resamplerPtr != Zero && spx.nbChannels == inputChannels
      requires PartWay(spx, f, Streams(f, fed, inputFrameCount, inputChannels), next, made0, n, d0, was, dest)
      ensures spx.RatesOk() && spx.Design() == f && Playing(fed, next, made0 + n)
      ensures Framed(f, Streams(f, fed, inputFrameCount, inputChannels), made0, n, 1.0, inputChannels, d0, was,
                     dest[..])
    {
      hide AllFollow, Framed, Streams, Resampler.Design, Resampler.Chans;
    }

    // One turn of the loop of write: the first block in the queue goes on through the resampler.
    method Turn(dest: array<real>, d0: nat, maxFrameCount: nat, count: nat, ghost made0: nat, ghost was: seq<real>)
      returns (more: nat)
      requires Valid() && dest != spx.mem && dest != spx.sincTable && d0 + maxFrameCount * inputChannels <= dest.Length
      requires count < maxFrameCount && queue != [] && made == made0 + count
      requires Framed(spx.Design(), Streams(spx.Design(), fed, inputFrameCount, inputChannels), made0, count, 1.0,
                      inputChannels, d0, was, dest[..])
      modifies this`queue, this`doneQueue, this`offset, this`made
      modifies spx`lastSample, spx`sampFracNum, spx`magicSamples, spx`started, spx`inStride, spx`outStride, spx.mem,
               dest
      ensures Valid() && spx.Design() == old(spx.Design())
      ensures more <= maxFrameCount - count && made == made0 + count + more
      ensures Framed(spx.Design(), Streams(spx.Design(), fed, inputFrameCount, inputChannels), made0, count + more, 1.0,
                     inputChannels, d0, was, dest[..])
      ensures || queue == old(queue)[1..]
              || (queue == old(queue) && offset >= old(offset) && (offset > old(offset) || more > 0))
      ensures |queue| + |doneQueue| == old(|queue| + |doneQueue|)
    {
      QueuedIs();
      hide Playing, Framed, Streams, Queued, NextOf, Slot, Resampler.Ready, Resampler.Valid, Resampler.RatesOk,
           Resampler.Design, Resampler.Chans;
      var taken;
      taken, more := Feed(dest, d0, maxFrameCount, count, made0, was);
      Take(taken, more);
    }

    lemma MadeSoFar()
      requires Valid()
      ensures |fed| * inputFrameCount >= 0
      ensures made <= Avail(spx.Design(), 0, |fed| * inputFrameCount)
      ensures queue == [] ==> made == Avail(spx.Design(), 0, |fed| * inputFrameCount)
    {
      MulMono(0, |fed|, inputFrameCount);
      NoMoreThan(spx.Design(), spx.Chans(), fed, inputFrameCount, inputChannels,
                 NextOf(spx.filtLen, queue, fed, inputFrameCount, inputChannels, offset), made);
      if queue == [] {
        NothingLeft(spx.Design(), spx.Chans(), fed, inputFrameCount, inputChannels, made);
      }
      hide AllFollow, Streams, Avail;
    }

    /**
     write: plays the queue until it is empty or maxFrameCount frames are made. The count is
     exactly how many of the stream's outputs are due, and the frames are the next of every
     stream, attenuated; nothing else in dest is touched.
     */
    method Write(dest: array<real>, d0: nat, maxFrameCount: nat) returns (count: nat)
      requires Valid() && dest != spx.mem && dest != spx.sincTable && d0 + maxFrameCount * inputChannels <= dest.Length
      modifies this`queue, this`doneQueue, this`offset, this`made
      modifies spx`lastSample, spx`sampFracNum, spx`magicSamples, spx`started, spx`inStride, spx`outStride, spx.mem,
               dest
      ensures Valid() && spx.Design() == old(spx.Design())
      ensures made == old(made) + count && |fed| * inputFrameCount >= 0
      ensures count == Min(maxFrameCount, Avail(spx.Design(), 0, |fed| * inputFrameCount) - old(made))
      ensures count < maxFrameCount ==> queue == []
      ensures |queue| <= |old(queue)| && |queue| + |doneQueue| == old(|queue| + |doneQueue|)
      ensures Framed(spx.Design(), Streams(spx.Design(), fed, inputFrameCount, inputChannels), old(made), count,
                     0.94, inputChannels, d0, old(dest[..]), dest[..])
    {
      QueuedIs();
      FramedNone(spx.Design(), Streams(spx.Design(), fed, inputFrameCount, inputChannels), made, 1.0, inputChannels, d0,
                 dest[..]);
      hide Playing, Queued, NextOf, Framed, Streams, Avail, Resampler.RatesOk, Resampler.Design;
      ghost var f := spx.Design();
      count := 0;
      while count < maxFrameCount && queue != []
        invariant Valid() && spx.RatesOk() && spx.Design() == f
        invariant 0 <= count <= maxFrameCount && made == old(made) + count
        invariant |queue| <= |old(queue)| && |queue| + |doneQueue| == old(|queue| + |doneQueue|)
        invariant Framed(f, Streams(f, fed, inputFrameCount, inputChannels), old(made), count, 1.0, inputChannels, d0,
                         old(dest[..]), dest[..])
        decreases |queue|, Span(inputFrameCount, inputChannels) - offset, maxFrameCount - count
      {
        OffsetBound();
        var more := Turn(dest, d0, maxFrameCount, count, old(made), old(dest[..]));
        count := count + more;
        OffsetBound();
      }
      MadeSoFar();
      Attenuate(dest, d0, count, maxFrameCount, old(made), old(dest[..]));
    }

    lemma OffsetBound()
      requires Valid()
      ensures offset < Span(inputFrameCount, inputChannels) && spx.RatesOk()
    {
    }

    method Attenuate(dest: array<real>, d0: nat, count: nat, maxFrameCount: nat, ghost made0: nat, ghost was: seq<real>)
      requires Valid() && dest != spx.mem && dest != spx.sincTable
      requires count <= maxFrameCount && d0 + maxFrameCount * inputChannels <= dest.Length
      requires Framed(spx.Design(), Streams(spx.Design(), fed, inputFrameCount, inputChannels), made0, count, 1.0,
                      inputChannels, d0, was, dest[..])
      modifies dest
      ensures Framed(spx.Design(), Streams(spx.Design(), fed, inputFrameCount, inputChannels), made0, count,
                     ATTENUATION, inputChannels, d0, was, dest[..])
    {
      hide *;
      MulMono(0, count, inputChannels);
      MulMono(count, maxFrameCount, inputChannels);
      SlotIs(d0, count, inputChannels, 0);
      QueuedIs();
      ghost var now := dest[..];
      for i := 0 to count * inputChannels
        invariant forall k: nat :: k < |now| ==> dest[k] == if d0 <= k < d0 + i then now[k] * ATTENUATION else now[k]
      {
        dest[d0 + i] := dest[d0 + i] * ATTENUATION;
      }
      FramedScaled(spx.Design(), Streams(spx.Design(), fed, inputFrameCount, inputChannels), made0, count, ATTENUATION,
                   inputChannels, d0, was, now, dest[..]);
    }
  }

  lemma RoomLeft(o: nat, n: nat, max: nat, d: pos)
    requires n <= max
    ensures Slot(o, n, d, 0) + Span(max - n, d) == o + max * d
  {
    Distribute(max, n, d);
  }

  // createResampler: quality 1; null stands for the exceptions.
  method CreateResampler(inputFrameCount: pos, inputChannels: pos, inputSr: pos, outputSr: pos, sinc: Sinc,
                         sincAllocOk: bool, memAllocOk: bool)
    returns (r: ResamplerImplementation?, ghost num: pos, ghost den: pos)
    ensures SameRatio(num, den, inputSr, outputSr) && Coprime(num, den)
    ensures r != null <==> Affordable(1, num, den, inputChannels, 160, 0, 0, sincAllocOk, memAllocOk)
    ensures r != null ==>
              && fresh(r) && fresh(r.spx) && fresh(r.spx.mem) && fresh(r.spx.sincTable)
              && r.Valid() && r.fed == [] && r.made == 0 && r.queue == []
              && r.inputFrameCount == inputFrameCount && r.inputChannels == inputChannels
              && r.spx.sinc == sinc && r.spx.quality == 1
              && r.spx.RatesOk() && DesignedFilter(r.spx.Design(), sinc, 1, num, den)
  {
    hide SameRatio, Coprime, Affordable, DesignedFilter, Resampler.Ready;
    var spx, err;
    spx, err, num, den := InitFrac(inputChannels, inputSr, outputSr, inputSr, outputSr, 1, sinc, sincAllocOk,
                                   memAllocOk);
    if spx == null {
      return null, num, den;
    }
    spx.AppliesDesign();
    r := new ResamplerImplementation(inputFrameCount, spx);
    r.QueuedIs();
  }
}
