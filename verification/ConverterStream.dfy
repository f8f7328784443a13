/**
 What a sample format converter is to put out, frame by frame: the callback's blocks one after
 the other, resampled if the rates differ, remixed if the channel counts differ.
 */
module ConverterStream {
  import opened Arithmetic
  import opened Polyphase
  import opened Channel
  import opened Frames
  import opened StreamResampler

  datatype Rate = Same | Changed(f: Filter)

  // callback(b) is what the callback's call number b writes; remix turns one input frame into
  // one output frame.
  datatype Plan = Plan(callback: nat -> seq<real>, frames: pos, inChannels: pos, outChannels: pos,
                       remix: seq<real> -> seq<real>, rate: Rate)

  ghost predicate PlanOk(p: Plan) {
    forall b: nat :: |p.callback(b)| == Span(p.frames, p.inChannels)
  }

  // What the first n calls of the callback have written.
  function Played(callback: nat -> seq<real>, n: nat): (blocks: seq<seq<real>>)
    ensures |blocks| == n
  {
    seq(n, b requires 0 <= b < n => callback(b))
  }

  lemma PlayedMore(callback: nat -> seq<real>, n: nat)
    ensures Played(callback, n + 1) == Played(callback, n) + [callback(n)]
  {
  }

  // How many blocks it takes to have resampled frame t.
  function BlocksFor(f: Filter, frames: pos, t: nat): (b: nat)
    ensures b > 0
  {
    MulMono(0, t, f.num);
    MulMono(1, frames, f.den);
    StartsBefore(t * f.num, 0, frames * f.den);
    t * f.num / (frames * f.den) + 1
  }

  lemma BlocksForLeast(f: Filter, frames: pos, t: nat, b: nat)
    ensures t < Avail(f, 0, b * frames) <==> b >= BlocksFor(f, frames, t)
  {
    AvailExact(f, 0, b * frames, t);
    MulMono(1, frames, f.den);
    assert b * frames * f.den == b * (frames * f.den);
    StartsBefore(t * f.num, b, frames * f.den);
  }

  // Sample c of frame t before remixing.
  function RawAt(p: Plan, t: nat, c: nat): real {
    match p.rate
    case Same =>
      StartsBefore(t, 0, p.frames);
      At(p.callback(t / p.frames), t % p.frames * p.inChannels + c)
    case Changed(f) =>
      Y(f, Stream(f, Played(p.callback, BlocksFor(f, p.frames, t)), p.frames, p.inChannels, c),
        Ahead(f, 0, t)) * ATTENUATION
  }

  function RawFrame(p: Plan, t: nat): seq<real> {
    seq(p.inChannels, c requires 0 <= c < p.inChannels => RawAt(p, t, c))
  }

  // Sample c of output frame t.
  function OutAt(p: Plan, t: nat, c: nat): real {
    if p.inChannels == p.outChannels then RawAt(p, t, c) else At(p.remix(RawFrame(p, t)), c)
  }

  lemma PlayedFrames(p: Plan, f: Filter, b: nat, b': nat, c: nat)
    requires b <= b'
    ensures 0 <= b * p.frames <= b' * p.frames
    ensures ChannelOf(Played(p.callback, b), p.frames, p.inChannels, c)
            == ChannelOf(Played(p.callback, b'), p.frames, p.inChannels, c)[..b * p.frames]
  {
    MulMono(0, b, p.frames);
    MulMono(b, b', p.frames);
    forall k | 0 <= k < b * p.frames
      ensures FrameAt(Played(p.callback, b), p.frames, p.inChannels, k, c)
              == FrameAt(Played(p.callback, b'), p.frames, p.inChannels, k, c)
    {
      StartsBefore(k, b, p.frames);
      StartsBefore(k, 0, p.frames);
    }
  }

  lemma SameStart(x: seq<real>, x': seq<real>, n: nat, p: int, len: nat)
    requires n == |x| <= |x'| && x == x'[..n] && p + len <= n
    ensures SameWindow(x, p, x', p, len)
  {
  }

  /**
   A frame is the same however many blocks beyond those it needs have been played: output never
   depends on input still to come.
   */
  lemma RawStable(p: Plan, f: Filter, b: nat, t: nat, c: nat)
    requires p.rate == Changed(f) && t < Avail(f, 0, b * p.frames)
    ensures Y(f, Stream(f, Played(p.callback, b), p.frames, p.inChannels, c), Ahead(f, 0, t)) * ATTENUATION
            == RawAt(p, t, c)
  {
    var b0 := BlocksFor(f, p.frames, t);
    var x := Stream(f, Played(p.callback, b0), p.frames, p.inChannels, c);
    var x' := Stream(f, Played(p.callback, b), p.frames, p.inChannels, c);
    BlocksForLeast(f, p.frames, t, b);
    BlocksForLeast(f, p.frames, t, b0);
    PlayedFrames(p, f, b0, b, c);
    AvailExact(f, 0, b0 * p.frames, t);
    StartsBefore(Ahead(f, 0, t), b0 * p.frames, f.den);
    hide ChannelOf, Zeros, Tap, Avail, BlocksFor, Played;
    assert x == x'[..|x|];
    SameStart(x, x', |x|, Ahead(f, 0, t) / f.den, f.taps);
    TapLocal(f, Ahead(f, 0, t) % f.den, x, Ahead(f, 0, t) / f.den, x', Ahead(f, 0, t) / f.den);
  }

  // The first n frames of the workspace are those from frame `first` of the stream on.
  ghost predicate Worked(p: Plan, first: nat, n: nat, ws: seq<real>) {
    forall j: nat, c: nat :: j < n && c < p.inChannels && Slot(0, j, p.inChannels, c) < |ws| ==>
      ws[Slot(0, j, p.inChannels, c)] == RawAt(p, first + j, c)
  }

  // The resampler's next frames, written behind those already there.
  lemma WorkedMore(p: Plan, f: Filter, first: nat, n: nat, more: nat, b: nat, was: seq<real>, now: seq<real>)
    requires p.rate == Changed(f) && Worked(p, first, n, was) && first + n + more <= Avail(f, 0, b * p.frames)
    requires Framed(f, Streams(f, Played(p.callback, b), p.frames, p.inChannels), first + n, more, 0.94,
                    p.inChannels, Slot(0, n, p.inChannels, 0), was, now)
    ensures Worked(p, first, n + more, now)
  {
    hide Slot, Y, Avail, Stream, Ahead, RawAt;
    var d := p.inChannels;
    forall j: nat, c: nat | j < n + more && c < d && Slot(0, j, d, c) < |now|
      ensures now[Slot(0, j, d, c)] == RawAt(p, first + j, c)
    {
      SlotOrder(0, n, j, d, c);
      if j >= n {
        SlotOrder(0, n, j - n, d, c);
        RawStable(p, f, b, first + j, c);
      }
    }
  }

  // Frames `from` up to n of the output buffer are those from frame `first` of the stream on.
  ghost predicate Holding(p: Plan, first: nat, from: nat, n: nat, out: seq<real>) {
    forall j: nat, c: nat :: from <= j < n && c < p.outChannels && Slot(0, j, p.outChannels, c) < |out| ==>
      out[Slot(0, j, p.outChannels, c)] == OutAt(p, first + (j - from), c)
  }

  // `now` is `was` with the n frames from frame `first` of the stream on written from o on.
  ghost predicate Given(p: Plan, first: nat, n: nat, o: nat, was: seq<real>, now: seq<real>) {
    && |now| == |was|
    && (forall i: nat :: i < o && i < |was| ==> now[i] == was[i])
    && forall k: nat, c: nat :: c < p.outChannels && Slot(o, k, p.outChannels, c) < |was| ==>
         now[Slot(o, k, p.outChannels, c)]
             == if k < n then OutAt(p, first + k, c) else was[Slot(o, k, p.outChannels, c)]
  }

  lemma GivenNone(p: Plan, first: nat, o: nat, was: seq<real>)
    ensures Given(p, first, 0, o, was, was)
  {
  }

  // A copy of `more` frames, `from` being the next one held.
  lemma GivenMore(p: Plan, first: nat, n: nat, o: nat, was: seq<real>, now: seq<real>,
                  held: seq<real>, from: nat, end: nat, more: nat, next: seq<real>)
    requires Given(p, first, n, o, was, now) && Holding(p, first + n, from, end, held) && from + more <= end
    requires Span(end, p.outChannels) <= |held| && |next| == |now|
    requires forall i: nat :: i < |now| ==>
               next[i] == if Slot(o, n, p.outChannels, 0) <= i < Slot(o, n, p.outChannels, 0)
                   + Span(more, p.outChannels)
                          then At(held, i - Slot(o, n, p.outChannels, 0) + Span(from, p.outChannels)) else now[i]
    ensures Given(p, first, n + more, o, was, next)
    ensures Holding(p, first + n + more, from + more, end, held)
  {
    var d := p.outChannels;
    forall j: nat, c: nat | from + more <= j < end && c < d && Slot(0, j, d, c) < |held|
      ensures held[Slot(0, j, d, c)] == OutAt(p, first + n + more + (j - (from + more)), c)
    {
      assert first + n + (j - from) == first + n + more + (j - (from + more));
    }
    SlotBase(o, n, d);
    forall k: nat, c: nat | c < d && Slot(o, k, d, c) < |was|
      ensures next[Slot(o, k, d, c)] == if k < n + more then OutAt(p, first + k, c) else was[Slot(o, k, d, c)]
    {
      CopySlot(o, n, k, d, c, from, more, end);
      if n <= k < n + more {
        assert held[Slot(0, from + (k - n), d, c)] == OutAt(p, first + n + (from + (k - n) - from), c);
      }
    }
  }

  // Where a sample copied to slot k of the destination comes from.
  lemma CopySlot(o: nat, n: nat, k: nat, d: pos, c: nat, from: nat, more: nat, end: nat)
    requires c < d && from + more <= end
    ensures Slot(o, n, d, 0) + Span(more, d) == Slot(o, n + more, d, 0)
    ensures k < n <==> Slot(o, k, d, c) < Slot(o, n, d, 0)
    ensures k < n + more <==> Slot(o, k, d, c) < Slot(o, n + more, d, 0)
    ensures n <= k < n + more ==>
              && Slot(o, k, d, c) - Slot(o, n, d, 0) + Span(from, d) == Slot(0, from + (k - n), d, c)
              && Slot(0, from + (k - n), d, c) < Span(end, d)
  {
    Distribute(n, more, d);
    SlotOrder(o, n, k, d, c);
    SlotOrder(o, n + more, k, d, c);
    if n <= k < n + more {
      Distribute(k, n, d);
      Distribute(from, k - n, d);
      SlotOrder(0, end, from + (k - n), d, c);
    }
  }
}
