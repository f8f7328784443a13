/**
 Streams of interleaved frames: what the resampler is fed in blocks, one stream per channel,
 and what it is then to put out, frame by frame.
 */
module Frames {
  import opened Arithmetic
  import opened Polyphase
  import opened Channel
  import opened Strided
  import opened Realigning
  import opened SpeexResampler

  // Every block holds `frames` frames of d samples.
  ghost predicate BlocksOk(blocks: seq<seq<real>>, frames: pos, d: pos) {
    forall b: nat :: b < |blocks| ==> |blocks[b]| == frames * d
  }

  // Channel c of the blocks played one after the other.
  function ChannelOf(blocks: seq<seq<real>>, frames: pos, d: pos, c: nat): (x: seq<real>)
    ensures |x| == |blocks| * frames
  {
    MulMono(0, |blocks|, frames);
    seq(|blocks| * frames, k requires 0 <= k < |blocks| * frames => FrameAt(blocks, frames, d, k, c))
  }

  function FrameAt(blocks: seq<seq<real>>, frames: pos, d: pos, k: nat, c: nat): real
    requires k < |blocks| * frames
  {
    StartsBefore(k, |blocks|, frames);
    StartsBefore(k, 0, frames);
    At(blocks[k / frames], k % frames * d + c)
  }

  lemma ChannelAppend(blocks: seq<seq<real>>, b: seq<real>, frames: pos, d: pos, c: nat)
    ensures ChannelOf(blocks + [b], frames, d, c) == ChannelOf(blocks, frames, d, c) + Gather(b, c, d, frames)
  {
    var n := |blocks|;
    Distribute(n, 1, frames);
    MulMono(0, n, frames);
    forall k | 0 <= k < n * frames
      ensures FrameAt(blocks + [b], frames, d, k, c) == FrameAt(blocks, frames, d, k, c)
    {
      StartsBefore(k, n, frames);
      StartsBefore(k, 0, frames);
    }
    forall j | 0 <= j < frames
      ensures FrameAt(blocks + [b], frames, d, n * frames + j, c) == Gather(b, c, d, frames)[j]
    {
      DivModUnique(n * frames + j, n, j, frames);
    }
  }

  // The frames of block i from frame j on, as the resampler is offered them.
  lemma ChannelSlice(blocks: seq<seq<real>>, frames: pos, d: pos, c: nat, i: nat, j: nat)
    requires i < |blocks| && j <= frames
    ensures 0 <= i * frames && i * frames + frames <= |blocks| * frames && 0 <= j * d
    ensures ChannelOf(blocks, frames, d, c)[i * frames + j..i * frames + frames]
            == Gather(blocks[i], j * d + c, d, frames - j)
  {
    MulMono(0, i, frames);
    MulMono(i + 1, |blocks|, frames);
    Distribute(i, 1, frames);
    MulMono(0, j, d);
    forall k | i * frames + j <= k < i * frames + frames
      ensures FrameAt(blocks, frames, d, k, c) == Gather(blocks[i], j * d + c, d, frames - j)[k - (i * frames + j)]
    {
      DivModUnique(k, i, k - i * frames, frames);
      Distribute(j, k - i * frames - j, d);
    }
  }

  // What each channel of filter f sees: silence, then its part of the blocks.
  function Stream(f: Filter, blocks: seq<seq<real>>, frames: pos, d: pos, c: nat): (x: seq<real>)
    ensures |x| == f.taps - 1 + |blocks| * frames
  {
    Zeros(f.taps - 1) + ChannelOf(blocks, frames, d, c)
  }

  function Streams(f: Filter, blocks: seq<seq<real>>, frames: pos, d: pos): (xs: seq<seq<real>>)
    ensures |xs| == d
  {
    seq(d, c requires 0 <= c < d => Stream(f, blocks, frames, d, c))
  }

  // Every channel is `made` outputs into its stream and is to be offered sample `next` of it.
  ghost predicate AllFollow(f: Filter, cs: seq<Channel>, xs: seq<seq<real>>, next: nat, made: nat) {
    && |cs| == |xs|
    && forall c: nat :: c < |cs| ==> Follows(f, cs[c], xs[c], 0, next, made) && |cs[c].memory| == f.taps - 1
  }

  lemma UnusedFollow(f: Filter, frames: pos, d: pos)
    ensures AllFollow(f, Unused(f, d), Streams(f, [], frames, d), f.taps - 1, 0)
  {
    forall c: nat | c < d
      ensures Follows(f, Fresh(f), Streams(f, [], frames, d)[c], 0, f.taps - 1, 0)
    {
      FreshFollows(f, []);
      assert ChannelOf([], frames, d, c) == [];
    }
  }

  lemma MoreFollow(f: Filter, cs: seq<Channel>, blocks: seq<seq<real>>, b: seq<real>, frames: pos, d: pos, next: nat,
                   made: nat)
    requires AllFollow(f, cs, Streams(f, blocks, frames, d), next, made)
    ensures AllFollow(f, cs, Streams(f, blocks + [b], frames, d), next, made)
  {
    hide Follows, ChannelOf, Zeros;
    forall c: nat | c < d
      ensures Follows(f, cs[c], Stream(f, blocks + [b], frames, d, c), 0, next, made)
    {
      assert Follows(f, cs[c], Streams(f, blocks, frames, d)[c], 0, next, made);
      ChannelAppend(blocks, b, frames, d, c);
      FollowsMore(f, cs[c], Stream(f, blocks, frames, d, c), Gather(b, c, d, frames), 0, next, made);
      assert Stream(f, blocks + [b], frames, d, c) == Stream(f, blocks, frames, d, c) + Gather(b, c, d, frames);
    }
  }

  // Channels on the same place of their streams are in step.
  lemma FollowLevel(f: Filter, cs: seq<Channel>, xs: seq<seq<real>>, next: nat, made: nat)
    requires AllFollow(f, cs, xs, next, made)
    ensures Level(cs) && forall c :: c in cs ==> Fits(f, c)
  {
    forall i: nat, j: nat | i < |cs| && j < |cs|
      ensures SameShape(cs[i], cs[j])
    {
      assert Follows(f, cs[i], xs[i], 0, next, made) && Follows(f, cs[j], xs[j], 0, next, made);
      DivModUnique(Pos(f, cs[i]), cs[i].last, cs[i].frac, f.den);
      DivModUnique(Pos(f, cs[j]), cs[j].last, cs[j].frac, f.den);
    }
    forall i: nat | i < |cs|
      ensures Fits(f, cs[i])
    {
      assert Follows(f, cs[i], xs[i], 0, next, made);
    }
  }

  // The outputs of all channels are the next `more` of their streams.
  ghost predicate AllMade(f: Filter, ps: seq<Processed>, xs: seq<seq<real>>, made: nat, more: nat) {
    |ps| == |xs| && forall c: nat :: c < |ps| ==> ps[c].out == Outputs(f, xs[c], Ahead(f, 0, made), more)
  }

  // The n frames of the input from `off` on are what every stream goes on with at sample `next`.
  ghost predicate Upcoming(xs: seq<seq<real>>, next: nat, n: nat, input: Input, off: nat) {
    forall c: nat :: c < |xs| ==> next + n <= |xs[c]| && Offered(input, off + c, |xs|, n) == xs[c][next..next + n]
  }

  // One channel's call: the next outputs of its stream, and it still follows the stream.
  ghost predicate OneDone(f: Filter, p: Processed, x: seq<real>, next: nat, made: nat, n: nat, outLen: nat) {
    && p.taken <= n && |p.out| <= outLen && (|p.out| < outLen ==> p.taken == n)
    && p.out == Outputs(f, x, Ahead(f, 0, made), |p.out|)
    && Follows(f, p.chan, x, 0, next + p.taken, made + |p.out|) && |p.chan.memory| == f.taps - 1
  }

  lemma OneFollows(f: Filter, c: Channel, x: seq<real>, next: nat, made: nat, n: nat, outLen: nat, xlen: pos)
    requires Follows(f, c, x, 0, next, made) && |c.memory| == f.taps - 1 && next + n <= |x|
    ensures OneDone(f, Process(f, c, x[next..next + n], outLen, xlen), x, next, made, n, outLen)
  {
    hide Process, Outputs, Follows, Avail;
    ProcessFollows(f, c, x, 0, next, made, n, outLen, xlen);
    assert Fits(f, c) by { FollowsFits(f, c, x, next, made); }
    ProcessFacts(f, c, x[next..next + n], outLen, xlen);
  }

  lemma FollowsFits(f: Filter, c: Channel, x: seq<real>, next: nat, made: nat)
    requires Follows(f, c, x, 0, next, made)
    ensures Fits(f, c)
  {
  }

  /**
   One interleaved call on channels that follow their streams: the outputs are the next ones of
   every stream, and all channels follow theirs to the same later place.
   */
  lemma CallAllFollows(f: Filter, cs: seq<Channel>, input: Input, off: nat, n: nat, outLen: nat, xlen: pos,
                       xs: seq<seq<real>>, next: nat, made: nat, now: seq<Channel>)
    requires |cs| > 0 && AllFollow(f, cs, xs, next, made)
    requires Upcoming(xs, next, n, input, off)
    requires (forall c :: c in cs ==> Fits(f, c)) && Through(cs, CallAll(f, cs, input, off, n, outLen, xlen), |cs|, now)
    ensures var ps := CallAll(f, cs, input, off, n, outLen, xlen);
            var taken, more := ps[|cs| - 1].taken, |ps[|cs| - 1].out|;
            && taken <= n && more <= outLen && (more < outLen ==> taken == n)
            && AllMade(f, ps, xs, made, more)
            && AllFollow(f, now, xs, next + taken, made + more)
  {
    FollowLevel(f, cs, xs, next, made);
    CallLevel(f, cs, input, off, n, outLen, xlen, now);
    var ps := CallAll(f, cs, input, off, n, outLen, xlen);
    hide CallAll, Process, Offered, Fits, Outputs, Follows, Level, Ahead;
    forall c: nat | c < |cs|
      ensures OneDone(f, ps[c], xs[c], next, made, n, outLen)
    {
      CallAllAt(f, cs, input, off, n, outLen, xlen, c);
      OneFollows(f, cs[c], xs[c], next, made, n, outLen, xlen);
    }
    assert OneDone(f, ps[|cs| - 1], xs[|cs| - 1], next, made, n, outLen);
  }

  // The number of samples in n frames.
  function Span(n: nat, d: pos): nat {
    n * d
  }

  // Sample c of frame k of a buffer whose frames start at o.
  function Slot(o: nat, k: nat, d: pos, c: nat): nat {
    o + k * d + c
  }

  lemma SlotOrder(o: nat, n: nat, k: nat, d: pos, c: nat)
    requires c < d
    ensures Slot(Slot(o, n, d, 0), k, d, c) == Slot(o, n + k, d, c)
    ensures k < n <==> Slot(o, k, d, c) < Slot(o, n, d, 0)
  {
    Distribute(n, k, d);
    Distribute(k, 1, d);
    if k < n { MulMono(k + 1, n, d); } else { MulMono(n, k, d); }
  }

  // `now` is `was` with the n outputs after the first `made` of every stream written as frames
  // from o on, each scaled by g; nothing else is changed.
  ghost predicate Framed(f: Filter, xs: seq<seq<real>>, made: nat, n: nat, g: real, d: pos, o: nat, was: seq<real>,
                         now: seq<real>) {
    && |now| == |was| && |xs| == d
    && (forall i: nat :: i < o && i < |was| ==> now[i] == was[i])
    && forall k: nat, c: nat :: c < d && Slot(o, k, d, c) < |was| ==>
         now[Slot(o, k, d, c)] == if k < n then Y(f, xs[c], Ahead(f, 0, made + k)) * g else was[Slot(o, k, d, c)]
  }

  lemma FramedNone(f: Filter, xs: seq<seq<real>>, made: nat, g: real, d: pos, o: nat, was: seq<real>)
    requires |xs| == d
    ensures Framed(f, xs, made, 0, g, d, o, was, was)
  {
  }

  lemma OutputsAt(f: Filter, x: seq<real>, made: nat, more: nat, k: nat)
    requires k < more
    ensures Outputs(f, x, Ahead(f, 0, made), more)[k] == Y(f, x, Ahead(f, 0, made + k))
  {
    hide Y;
    Distribute(made, k, f.num);
  }

  // The frames of one more call come right after those already there.
  lemma FramedMore(f: Filter, xs: seq<seq<real>>, made: nat, n: nat, d: pos, o: nat, was: seq<real>, now: seq<real>,
                   ps: seq<Processed>, more: nat)
    requires Framed(f, xs, made, n, 1.0, d, o, was, now) && AllMade(f, ps, xs, made + n, more)
    ensures Framed(f, xs, made, n + more, 1.0, d, o, was, ScatterChannels(now, Slot(o, n, d, 0), d, Outs(ps)))
  {
    hide Y, Slot, Outputs, ScatterChannels, Ahead;
    var q := Slot(o, n, d, 0);
    var next := ScatterChannels(now, q, d, Outs(ps));
    assert o <= q by { SlotOrder(o, n, 0, d, 0); SlotBase(o, n, d); }
    forall i: nat | i < o && i < |was|
      ensures next[i] == was[i]
    {
      ScatterChannelsBefore(now, q, d, Outs(ps), i);
    }
    forall k: nat, c: nat | c < d && Slot(o, k, d, c) < |was|
      ensures next[Slot(o, k, d, c)] == if k < n
              + more then Y(f, xs[c], Ahead(f, 0, made + k)) * 1.0 else was[Slot(o, k, d, c)]
    {
      SlotOrder(o, n, k, d, c);
      if k < n {
        ScatterChannelsBefore(now, q, d, Outs(ps), Slot(o, k, d, c));
      } else {
        SlotOrder(o, n, k - n, d, c);
        SlotIs(q, k - n, d, c);
        ScatterChannelsAt(now, q, d, Outs(ps), k - n, c);
        if k - n < more { OutputsAt(f, xs[c], made + n, more, k - n); }
      }
    }
  }

  lemma SlotBase(o: nat, n: nat, d: pos)
    ensures o <= Slot(o, n, d, 0)
  {
    MulMono(0, n, d);
  }

  lemma SlotIs(o: nat, k: nat, d: pos, c: nat)
    ensures Slot(o, k, d, c) == o + k * d + c
  {
  }

  // The resampler, applying f, has been offered the streams up to sample `next`, and of its
  // outputs those after the first `made` stand as n frames in out, from o on.
  ghost predicate PartWay(spx: Resampler, f: Filter, xs: seq<seq<real>>, next: int, made: nat, n: nat,
                          o: nat, was: seq<real>, out: array<real>)
    reads spx, spx.mem, spx.sincTable, out
  {
    && spx.Valid() && spx.Design() == f && Even(spx.Held())
    && out != spx.mem && out != spx.sincTable && next >= 0
    && AllFollow(f, spx.Chans(), xs, next, made + n)
    && Framed(f, xs, made, n, 1.0, spx.nbChannels, o, was, out[..])
  }

  // An interleaved call, writing its frames right after the `cnt` already written from o on.
  method Advance(spx: Resampler, input: Input, off: nat, n: nat, out: array<real>, o: nat, cnt: nat, room: nat,
                 ghost f: Filter, ghost xs: seq<seq<real>>, ghost next: nat, ghost made: nat, ghost was: seq<real>)
    returns (taken: nat, more: nat)
    requires PartWay(spx, f, xs, next, made, cnt, o, was, out)
    requires input.Samples? ==> off + Span(n, spx.nbChannels) <= |input.samples|
    requires Upcoming(xs, next, n, input, off)
    requires Slot(o, cnt, spx.nbChannels, 0) + Span(room, spx.nbChannels) <= out.Length
    modifies spx`lastSample, spx`sampFracNum, spx`magicSamples, spx`started, spx`inStride, spx`outStride, spx.mem, out
    ensures PartWay(spx, f, xs, next + taken, made, cnt + more, o, was, out)
    ensures old(spx.Ready()) ==> spx.Ready()
    ensures taken <= n && more <= room && (more < room ==> taken == n)
  {
    hide AllFollow, Framed, Upcoming, CallAll, Offered, Through, ScatterChannels, Outs, Slot,
         Resampler.RatesOk, Resampler.CountersOk, Resampler.TableOk, Resampler.SizeOk, Resampler.Design,
             Resampler.Chans;
    ghost var cs, w := spx.Chans(), out[..];
    FramedCount(f, xs, made, cnt, 1.0, spx.nbChannels, o, was, w);
    var success;
    taken, more, success := spx.ProcessInterleaved(input, off, n, out, Slot(o, cnt, spx.nbChannels, 0), room);
    ghost var xlen: pos := spx.memAllocSize - (spx.filtLen - 1);
    CallAllFollows(f, cs, input, off, n, room, xlen, xs, next, made + cnt, spx.Chans());
    FramedMore(f, xs, made, cnt, spx.nbChannels, o, was, w, CallAll(f, cs, input, off, n, room, xlen), more);
  }

  lemma FramedCount(f: Filter, xs: seq<seq<real>>, made: nat, n: nat, g: real, d: pos, o: nat, was: seq<real>,
                    now: seq<real>)
    requires Framed(f, xs, made, n, g, d, o, was, now)
    ensures |xs| == d && |now| == |was|
  {
  }
}
