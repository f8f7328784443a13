/**
 The layers put together: what OutputWorkerThread writes, under every interleaving of its two
 threads, is the converter's stream, and so the resampled and remixed callback.
 */
module OutputStream {
  import opened Arithmetic
  import opened FilterDesign
  import opened Frames
  import opened ConverterStream
  import opened SampleFormatConverter
  import opened Pipeline

  // Frame t of the converter's output.
  function OutFrame(p: Plan, t: nat): Frame {
    seq(p.outChannels, c requires 0 <= c < p.outChannels => OutAt(p, t, c))
  }

  // The constructor's destination_frames.
  function DestinationFrames(sourceFrames: pos, sourceSr: pos, destinationSr: pos): nat {
    MulMono(0, sourceFrames, destinationSr);
    StartsBefore(sourceFrames * destinationSr, 0, sourceSr);
    sourceFrames * destinationSr / sourceSr
  }

  // It is the number of whole frames the source's block is worth at the destination's rate.
  lemma DestinationFramesIs(sourceFrames: pos, sourceSr: pos, destinationSr: pos, n: nat)
    ensures n == DestinationFrames(sourceFrames, sourceSr, destinationSr)
            <==> n * sourceSr <= sourceFrames * destinationSr < (n + 1) * sourceSr
  {
    var product := sourceFrames * destinationSr;
    DivMod(product, sourceSr);
    Distribute(n, 1, sourceSr);
    Distribute(product / sourceSr, 1, sourceSr);
    if n * sourceSr <= product < (n + 1) * sourceSr {
      DivModUnique(product, n, product - n * sourceSr, sourceSr);
    }
  }

  // The pipeline over a converter with that plan, from one rate to the other.
  function ConfigOf(p: Plan, mixahead: pos, sourceSr: pos, destinationSr: pos): Config {
    Config(mixahead, DestinationFrames(p.frames, sourceSr, destinationSr), (t: nat) => OutFrame(p, t))
  }

  // The pipeline's stream is that of a converter with this plan.
  ghost predicate PutsOut(c: Config, p: Plan) {
    forall t: nat :: c.stream(t) == OutFrame(p, t)
  }

  lemma ConfigPutsOut(p: Plan, mixahead: pos, sourceSr: pos, destinationSr: pos)
    ensures PutsOut(ConfigOf(p, mixahead, sourceSr, destinationSr), p)
  {
  }

  // Frame j of a buffer of interleaved samples.
  function FrameOf(buffer: seq<real>, d: pos, j: nat): Frame
    requires Span(j, d) + d <= |buffer|
  {
    buffer[Span(j, d)..Span(j, d) + d]
  }

  lemma FrameFits(n: nat, d: pos, j: nat, length: nat)
    requires j < n && Span(n, d) <= length
    ensures Span(j, d) + d <= length
  {
    MulMono(j + 1, n, d);
    Distribute(j, 1, d);
  }

  // The first n frames of a buffer.
  function FramesOf(buffer: seq<real>, d: pos, n: nat): (frames: seq<Frame>)
    requires Span(n, d) <= |buffer|
    ensures |frames| == n
  {
    seq(n, j requires 0 <= j < n => FrameFits(n, d, j, |buffer|); FrameOf(buffer, d, j))
  }

  // What the converter's write leaves in a buffer, its first k blocks having gone to earlier ones,
  // is block k of the pipeline's stream.
  lemma ConverterFillsBlock(p: Plan, c: Config, k: nat, was: seq<real>, now: seq<real>)
    requires PutsOut(c, p)
    requires Span(c.frames, p.outChannels) <= |now| && 0 <= k * c.frames
    requires Given(p, k * c.frames, c.frames, 0, was, now)
    ensures FramesOf(now, p.outChannels, c.frames) == Block(c, k)
  {
    var d := p.outChannels;
    hide OutAt;
    forall j: nat | j < c.frames
      ensures Span(j, d) + d <= |now| && FrameOf(now, d, j) == Block(c, k)[j]
    {
      FrameFits(c.frames, d, j, |now|);
      var t := k * c.frames + j;
      forall e: nat | e < d
        ensures FrameOf(now, d, j)[e] == OutAt(p, t, e)
      {
        assert Slot(0, j, d, e) == Span(j, d) + e;
      }
    }
  }

  // std::fill with silence.
  method Fill(data: array<real>)
    modifies data
    ensures forall i :: 0 <= i < data.Length ==> data[i] == 0.0
  {
    for i := 0 to data.Length
      invariant forall k :: 0 <= k < i ==> data[k] == 0.0
    {
      data[i] := 0.0;
    }
  }

  /**
   The worker's turn with a buffer: it is cleared, and the converter writes the next block. After
   k turns the converter stands at frame k * destination_frames, so that is block k.
   */
  method MixBlock(conv: SampleFormatConverter, c: Config, data: array<real>, ghost k: nat)
    requires conv.Idle() && conv.Separate(data) && PutsOut(c, conv.plan)
    requires Span(c.frames, conv.plan.outChannels) == data.Length && conv.delivered == k * c.frames
    modifies conv`calls, conv`consumedOutputFrames, conv`refills, conv`filled, conv`delivered
    modifies conv.inputBuffer, conv.outputBuffer, conv.workspace, data, conv.Footprint()
    ensures conv.Idle() && conv.Footprint() == old(conv.Footprint()) && conv.delivered == (k + 1) * c.frames
    ensures FramesOf(data[..], conv.plan.outChannels, c.frames) == Block(c, k)
  {
    hide *;
    conv.SeparateIs(data);
    conv.IdleIs();
    conv.ValidIs();
    conv.SoundIs();
    Fill(data);
    conv.IsSound();
    conv.IsValid();
    conv.IsIdle();
    conv.IsSeparate(data);
    ghost var was := data[..];
    conv.Write(c.frames, data, 0);
    ConverterFillsBlock(conv.plan, c, k, was, data[..]);
    Distribute(k, 1, c.frames);
  }

  lemma WorkerMixes(c: Config, s: State)
    requires Inv(c, s) && |s.data| == |s.used| == c.mixahead
    ensures if s.worker.Mixing?
            then && s.worker.cmd.Buffer? && s.worker.cmd.id < c.mixahead
                 && WorkerNext(c, s).data == s.data[s.worker.cmd.id := Block(c, s.blocks)]
                 && WorkerNext(c, s).blocks == s.blocks + 1
            else WorkerNext(c, s).data == s.data && WorkerNext(c, s).blocks == s.blocks
  {
    hide Inv, Block, Prefix, Conserved, StopLast, PermitsMatch, InOrder, Exact;
    InvIs(c, s);
    if s.worker.Mixing? { HandApart(c, s); }
  }

  lemma IoKeepsData(c: Config, s: State, call: Call)
    ensures IoNext(c, s, call).data == s.data && IoNext(c, s, call).blocks == s.blocks
  {
    hide Prefix, Block, WillWrite;
    if s.io.Copying? {
      assert Copy(c, s, s.io.count, s.io.total).data == s.data && Copy(c, s, s.io.count, s.io.total).blocks == s.blocks;
    }
    hide Copy;
  }

  // Only the worker's mixing changes a buffer's samples.
  lemma OnlyMixingWrites(c: Config, s: State, m: Move)
    requires Inv(c, s) && |s.data| == |s.used| == c.mixahead
    ensures var s' := Next(c, s, m);
            if m.WorkerMoves? && s.worker.Mixing?
            then && s.worker.cmd.Buffer? && s.worker.cmd.id < c.mixahead
                 && s'.data == s.data[s.worker.cmd.id := Block(c, s.blocks)] && s'.blocks == s.blocks + 1
            else s'.data == s.data && s'.blocks == s.blocks
  {
    hide Inv, Block, WorkerNext, IoNext;
    match m
    case WorkerMoves => WorkerMixes(c, s);
    case IoMoves(call) => IoKeepsData(c, s, call);
  }

  lemma RunMixing(c: Config, run: seq<State>, moves: seq<Move>, i: nat)
    requires IsRun(c, run, moves) && i < |moves|
    ensures |run| == |moves| + 1 && |run[i].data| == c.mixahead
    ensures if moves[i].WorkerMoves? && run[i].worker.Mixing?
            then && run[i].worker.cmd.Buffer? && run[i].worker.cmd.id < c.mixahead
                 && run[i + 1].data == run[i].data[run[i].worker.cmd.id := Block(c, run[i].blocks)]
                 && run[i + 1].blocks == run[i].blocks + 1
            else run[i + 1].data == run[i].data && run[i + 1].blocks == run[i].blocks
  {
    hide Inv, Calls, Block, Next;
    RunInv(c, run, moves, i);
    RunSizes(c, run, moves, i);
    OnlyMixingWrites(c, run[i], moves[i]);
  }

  lemma {:induction false} RunSizes(c: Config, run: seq<State>, moves: seq<Move>, i: nat)
    requires IsRun(c, run, moves) && i < |run|
    ensures |run[i].data| == |run[i].used| == c.mixahead
  {
    if i > 0 {
      RunSizes(c, run, moves, i - 1);
      assert run[i - 1 + 1] == Next(c, run[i - 1], moves[i - 1]);
      hide Block;
    }
  }

  method NewBuffer(conv: SampleFormatConverter, n: nat) returns (data: array<real>)
    requires conv.Idle()
    ensures fresh(data) && data.Length == n && conv.Separate(data)
    ensures conv.Idle() && conv.Footprint() == old(conv.Footprint())
  {
    hide Given, Holding, Tuned, Lazy, Span;
    data := new real[n];
  }

  lemma RunStart(c: Config, run: seq<State>, moves: seq<Move>)
    requires IsRun(c, run, moves)
    ensures |run| == |moves| + 1
    ensures run[0].data == seq(c.mixahead, _ => []) && run[0].blocks == 0
  {
  }

  /**
   A converter that is used whenever the worker mixes, along any run, holds exactly the pipeline's
   data: each buffer of the run is what the converter's write has left in it, and the converter
   stands where the run's stream does.
   */
  method Replay(conv: SampleFormatConverter, c: Config, run: seq<State>, moves: seq<Move>)
    returns (held: seq<seq<Frame>>)
    requires conv.Idle() && conv.delivered == 0 && PutsOut(c, conv.plan) && IsRun(c, run, moves)
    modifies conv`calls, conv`consumedOutputFrames, conv`refills, conv`filled, conv`delivered
    modifies conv.inputBuffer, conv.outputBuffer, conv.workspace, conv.Footprint()
    ensures conv.Idle() && conv.Footprint() == old(conv.Footprint())
    ensures held == run[|moves|].data && conv.delivered == run[|moves|].blocks * c.frames
  {
    hide *;
    RunStart(c, run, moves);
    held := seq(c.mixahead, _ => []);
    for i := 0 to |moves|
      invariant conv.Idle() && conv.Footprint() == old(conv.Footprint())
      invariant held == run[i].data && conv.delivered == run[i].blocks * c.frames
    {
      RunMixing(c, run, moves, i);
      if moves[i].WorkerMoves? && run[i].worker.Mixing? {
        var data := NewBuffer(conv, Span(c.frames, conv.plan.outChannels));
        MixBlock(conv, c, data, run[i].blocks);
        held := held[run[i].worker.cmd.id := FramesOf(data[..], conv.plan.outChannels, c.frames)];
      }
    }
  }

  /**
   End to end: under every interleaving, frame t of everything ever written is frame t of the
   callback's blocks, resampled and remixed.
   */
  lemma WrittenIsConverted(p: Plan, mixahead: pos, sourceSr: pos, destinationSr: pos,
                           run: seq<State>, moves: seq<Move>, i: nat, t: nat)
    requires IsRun(ConfigOf(p, mixahead, sourceSr, destinationSr), run, moves) && i < |run| && t < |run[i].delivered|
    ensures run[i].delivered[t] == OutFrame(p, t)
    ensures |run[i].delivered| <= run[i].blocks * DestinationFrames(p.frames, sourceSr, destinationSr)
    ensures |run[i].delivered| * sourceSr <= run[i].blocks * (p.frames * destinationSr)
  {
    DeliveredIsPrefix(ConfigOf(p, mixahead, sourceSr, destinationSr), run, moves, i);
    var n := DestinationFrames(p.frames, sourceSr, destinationSr);
    DestinationFramesIs(p.frames, sourceSr, destinationSr, n);
    BlocksWorth(|run[i].delivered|, run[i].blocks, n, sourceSr, p.frames * destinationSr);
    hide OutFrame;
  }

  /**
   From the constructor's arguments to what is written: for any schedule of the two threads, the
   converter made from these arguments leaves in the buffers what the run says they hold, and all
   that has been written is the beginning of its stream: the callback's blocks, resampled, when
   the rates differ, by the quality 1 design for this ratio, and remixed. Null stands for the
   converter's exception.
   */
  method Play(callback: nat -> seq<real>, sourceFrames: pos, sourceChannels: pos, sourceSr: pos,
              destinationChannels: pos, destinationSr: pos, remix: seq<real> -> seq<real>, mixahead: pos,
              sinc: Sinc, sincAllocOk: bool, memAllocOk: bool, moves: seq<Move>)
    returns (conv: SampleFormatConverter?, last: State, held: seq<seq<Frame>>, blockFrames: nat, ghost num: pos,
             ghost den: pos)
    requires forall b: nat :: |callback(b)| == Span(sourceFrames, sourceChannels)
    ensures sourceSr != destinationSr ==> SameRatio(num, den, sourceSr, destinationSr) && Coprime(num, den)
    ensures conv == null <==>
              sourceSr != destinationSr && !Affordable(1, num, den, sourceChannels, 160, 0, 0, sincAllocOk, memAllocOk)
    ensures conv != null ==>
              && last == RunOf(ConfigOf(conv.plan, mixahead, sourceSr, destinationSr), moves)[|moves|]
                 && held == last.data
              && conv.plan == Plan(callback, sourceFrames, sourceChannels, destinationChannels, remix, conv.plan.rate)
              && (sourceSr == destinationSr <==> conv.plan.rate == Same)
              && (sourceSr != destinationSr ==> DesignedFilter(conv.plan.rate.f, sinc, 1, num, den))
              && (forall t: nat :: t < |last.delivered| ==> last.delivered[t] == OutFrame(conv.plan, t))
              && blockFrames * sourceSr <= sourceFrames * destinationSr < (blockFrames + 1) * sourceSr
              && conv.delivered == last.blocks * blockFrames
              && |last.delivered| <= conv.delivered
  {
    hide *;
    conv, num, den := Create(callback, sourceFrames, sourceChannels, sourceSr, destinationChannels, destinationSr,
                             remix, sinc, sincAllocOk, memAllocOk);
    if conv == null {
      last, held, blockFrames := Start(Config(mixahead, 0, (t: nat) => [])), [], 0;
      return;
    }
    var c := ConfigOf(conv.plan, mixahead, sourceSr, destinationSr);
    ConfigPutsOut(conv.plan, mixahead, sourceSr, destinationSr);
    ConfigFrames(conv.plan, mixahead, sourceSr, destinationSr);
    blockFrames := DestinationFrames(sourceFrames, sourceSr, destinationSr);
    DestinationFramesIs(sourceFrames, sourceSr, destinationSr, blockFrames);
    RunOfIsRun(c, moves);
    var run := RunOf(c, moves);
    last := run[|moves|];
    held := Replay(conv, c, run, moves);
    forall t: nat | t < |last.delivered|
      ensures last.delivered[t] == OutFrame(conv.plan, t)
    {
      WrittenIsConverted(conv.plan, mixahead, sourceSr, destinationSr, run, moves, |moves|, t);
    }
    DeliveredIsPrefix(c, run, moves, |moves|);
  }

  lemma BlocksWorth(delivered: nat, blocks: nat, n: nat, sourceSr: pos, worth: nat)
    requires delivered <= blocks * n && n * sourceSr <= worth
    ensures delivered * sourceSr <= blocks * worth
  {
    MulMono(delivered, blocks * n, sourceSr);
    assert blocks * n * sourceSr == (n * sourceSr) * blocks;
    MulMono(n * sourceSr, worth, blocks);
  }

  lemma ConfigFrames(p: Plan, mixahead: pos, sourceSr: pos, destinationSr: pos)
    ensures ConfigOf(p, mixahead, sourceSr, destinationSr).frames
            == DestinationFrames(p.frames, sourceSr, destinationSr)
  {
  }

  // The blocks are empty when the source's block is shorter than one frame of the destination.
  lemma EmptyBlocks(sourceFrames: pos, sourceSr: pos, destinationSr: pos)
    ensures DestinationFrames(sourceFrames, sourceSr, destinationSr) == 0 <==> sourceFrames * destinationSr < sourceSr
  {
    StartsBefore(sourceFrames * destinationSr, 1, sourceSr);
  }

  // As with blocks of 4 frames from 48000 down to 8000 Hz.
  lemma EmptyBlocksExample()
    ensures DestinationFrames(4, 48000, 8000) == 0
  {
    EmptyBlocks(4, 48000, 8000);
  }

  /**
   In the constructor's terms: short writes are always underruns if and only if a block of the
   source is worth at least one frame of the destination.
   */
  lemma ShortIsUnderrunIff(p: Plan, mixahead: pos, sourceSr: pos, destinationSr: pos)
    ensures OnlyUnderrunsAreShort(ConfigOf(p, mixahead, sourceSr, destinationSr)) <==>
              p.frames * destinationSr >= sourceSr
  {
    hide OnlyUnderrunsAreShort;
    EmptyBlocks(p.frames, sourceSr, destinationSr);
    OnlyUnderrunsAreShortIff(ConfigOf(p, mixahead, sourceSr, destinationSr));
  }
}
