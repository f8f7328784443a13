/**
 SampleFormatConverter: pulls blocks from the callback as they are needed, and hands out the
 converted frames in pieces of any size.
 */
module SampleFormatConverter {
  import opened Arithmetic
  import opened Polyphase
  import opened FilterDesign
  import opened SpeexResampler
  import opened Frames
  import opened StreamResampler
  import opened ConverterStream

  // A whole block of the callback, when the rates are the same.
  lemma BlockWorked(p: Plan, b: nat)
    requires p.rate == Same && PlanOk(p)
    ensures 0 <= b * p.frames && Worked(p, b * p.frames, p.frames, p.callback(b))
  {
    MulMono(0, b, p.frames);
    forall j: nat, c: nat | j < p.frames && c < p.inChannels && Slot(0, j, p.inChannels, c) < |p.callback(b)|
      ensures p.callback(b)[Slot(0, j, p.inChannels, c)] == RawAt(p, b * p.frames + j, c)
    {
      DivModUnique(b * p.frames + j, b, j, p.frames);
      MulMono(0, j, p.inChannels);
    }
  }

  lemma WorkedHolds(p: Plan, first: nat, n: nat, ws: seq<real>, out: seq<real>)
    requires p.inChannels == p.outChannels && Worked(p, first, n, ws)
    requires Span(n, p.inChannels) <= |ws| && Span(n, p.inChannels) <= |out|
    requires out[..Span(n, p.inChannels)] == ws[..Span(n, p.inChannels)]
    ensures Holding(p, first, 0, n, out)
  {
    hide Slot, RawAt;
    forall j: nat, c: nat | j < n && c < p.outChannels && Slot(0, j, p.outChannels, c) < |out|
      ensures out[Slot(0, j, p.outChannels, c)] == OutAt(p, first + (j - 0), c)
    {
      SlotOrder(0, n, j, p.inChannels, c);
      SlotIs(0, n, p.inChannels, 0);
      assert ws[..Span(n, p.inChannels)][Slot(0, j, p.inChannels, c)] == RawAt(p, first + j, c);
    }
  }

  // A remixed frame.
  lemma FrameRemixed(p: Plan, first: nat, n: nat, ws: seq<real>, j: nat)
    requires p.inChannels != p.outChannels && Worked(p, first, n, ws) && j < n && Span(n, p.inChannels) <= |ws|
    ensures Span(j, p.inChannels) + p.inChannels <= Span(n, p.inChannels)
    ensures ws[Span(j, p.inChannels)..Span(j, p.inChannels) + p.inChannels] == RawFrame(p, first + j)
  {
    var d := p.inChannels;
    MulMono(j + 1, n, d);
    Distribute(j, 1, d);
    var row, t := ws[Span(j, d)..Span(j, d) + d], first + j;
    forall c: nat | c < d
      ensures row[c] == RawAt(p, t, c)
    {
      assert Slot(0, j, d, c) == Span(j, d) + c;
    }
    hide RawAt;
  }

  // Frames past the j-th do not share its slots.
  lemma FrameSlots(n: nat, j: nat, d: pos)
    requires j < n
    ensures Span(j, d) + d == Span(j + 1, d) <= Span(n, d)
    ensures forall i: nat, c: nat :: i < j && c < d ==> Slot(0, i, d, c) < Span(j, d)
    ensures forall c: nat :: c < d ==> Slot(0, j, d, c) == Span(j, d) + c
  {
    MulMono(j + 1, n, d);
    Distribute(j, 1, d);
    forall i: nat, c: nat | i < j && c < d
      ensures Slot(0, i, d, c) < Span(j, d)
    {
      SlotOrder(0, j, i, d, c);
    }
  }

  lemma WorkedPrefix(p: Plan, first: nat, n: nat, ws: seq<real>, block: seq<real>)
    requires Span(n, p.inChannels) <= |ws| && ws[..Span(n, p.inChannels)] == block && Worked(p, first, n, block)
    ensures Worked(p, first, n, ws)
  {
    hide Slot, RawAt;
    forall j: nat, c: nat | j < n && c < p.inChannels && Slot(0, j, p.inChannels, c) < |ws|
      ensures ws[Slot(0, j, p.inChannels, c)] == RawAt(p, first + j, c)
    {
      SlotOrder(0, n, j, p.inChannels, c);
      SlotIs(0, n, p.inChannels, 0);
      assert block[Slot(0, j, p.inChannels, c)] == RawAt(p, first + j, c);
    }
  }

  // std::copy from one buffer to another.
  method CopySamples(src: array<real>, s0: nat, n: nat, dst: array<real>, d0: nat)
    requires src != dst && s0 + n <= src.Length && d0 + n <= dst.Length
    modifies dst
    ensures forall i: nat :: i < dst.Length ==>
              dst[i] == if d0 <= i < d0 + n then At(src[..], i - d0 + s0) else old(dst[i])
  {
    for k := 0 to n
      invariant forall i: nat :: i < dst.Length ==> dst[i] == if d0 <= i < d0 + k then src[i - d0 + s0] else old(dst[i])
    {
      dst[d0 + k] := src[s0 + k];
    }
  }

  // remixAudioInterleaved: one output frame for every input frame.
  method RemixInterleaved(p: Plan, n: nat, ws: array<real>, out: array<real>, ghost first: nat)
    requires p.inChannels != p.outChannels && Worked(p, first, n, ws[..]) && ws != out
    requires Span(n, p.inChannels) <= ws.Length && Span(n, p.outChannels) <= out.Length
    modifies out
    ensures Holding(p, first, 0, n, out[..])
  {
    hide RawFrame, RawAt, Slot, Span, Worked, Holding;
    HoldingNone(p, first, out[..]);
    for j := 0 to n
      invariant Holding(p, first, 0, j, out[..])
    {
      RemixFrame(p, n, j, ws, out, first);
    }
  }

  lemma HoldingNone(p: Plan, first: nat, out: seq<real>)
    ensures Holding(p, first, 0, 0, out)
  {
  }

  method RemixFrame(p: Plan, n: nat, j: nat, ws: array<real>, out: array<real>, ghost first: nat)
    requires p.inChannels != p.outChannels && Worked(p, first, n, ws[..]) && ws != out && j < n
    requires Span(n, p.inChannels) <= ws.Length && Span(n, p.outChannels) <= out.Length
    requires Holding(p, first, 0, j, out[..])
    modifies out
    ensures Holding(p, first, 0, j + 1, out[..])
  {
    hide *;
    FrameRemixed(p, first, n, ws[..], j);
    FrameSlots(n, j, p.outChannels);
    ghost var was := out[..];
    var a, o := Span(j, p.inChannels), Span(j, p.outChannels);
    var frame := p.remix(ws[a..a + p.inChannels]);
    assert ws[a..a + p.inChannels] == ws[..][a..a + p.inChannels];
    for c := 0 to p.outChannels
      invariant forall i :: 0 <= i < o ==> out[i] == was[i]
      invariant forall k :: 0 <= k < c ==> out[o + k] == At(frame, k)
    {
      out[o + c] := At(frame, c);
    }
    HoldingFrame(p, first, j, was, out[..]);
  }

  lemma HoldingFrame(p: Plan, first: nat, j: nat, was: seq<real>, out: seq<real>)
    requires p.inChannels != p.outChannels && Holding(p, first, 0, j, was) && |was| == |out|
    requires Span(j, p.outChannels) + p.outChannels <= |out|
    requires forall k: nat :: k < p.outChannels ==> Slot(0, j, p.outChannels, k) == Span(j, p.outChannels) + k
    requires forall i: nat :: i < Span(j, p.outChannels) ==> out[i] == was[i]
    requires forall k: nat :: k < p.outChannels ==>
               out[Slot(0, j, p.outChannels, k)] == At(p.remix(RawFrame(p, first + j)), k)
    ensures Holding(p, first, 0, j + 1, out)
  {
    hide RawFrame, RawAt;
    FrameSlots(j + 1, j, p.outChannels);
    hide Slot;
    forall i: nat, c: nat | i < j + 1 && c < p.outChannels && Slot(0, i, p.outChannels, c) < |out|
      ensures out[Slot(0, i, p.outChannels, c)] == OutAt(p, first + (i - 0), c)
    {
      if i < j {
        assert was[Slot(0, i, p.outChannels, c)] == OutAt(p, first + (i - 0), c);
      } else {
        assert Slot(0, j, p.outChannels, c) == Span(j, p.outChannels) + c;
      }
    }
  }

  // The callback has run no more often than the frames made so far call for.
  ghost predicate Lazy(f: Filter, frames: pos, calls: nat, made: nat) {
    made <= Avail(f, 0, calls * frames) && (calls > 0 ==> Avail(f, 0, (calls - 1) * frames) < made)
  }

  // Lazy pins the number of calls down: it is the least that is enough for the last frame made.
  lemma LazyIsLeast(f: Filter, frames: pos, calls: nat, made: nat)
    requires Lazy(f, frames, calls, made)
    ensures calls == if made == 0 then 0 else BlocksFor(f, frames, made - 1)
  {
    if calls > 0 { BlocksForLeast(f, frames, made - 1, calls - 1); }
    if made > 0 { BlocksForLeast(f, frames, made - 1, calls); }
    AvailExact(f, 0, 0, 0);
  }

  // What one more block brings closer: input still missing for `target` outputs.
  function Missing(f: Filter, frames: pos, calls: nat, target: nat): int {
    target * f.num - calls * frames * f.den
  }

  lemma OneBlockCloser(f: Filter, frames: pos, calls: nat, target: nat)
    requires Avail(f, 0, calls * frames) < target
    ensures 0 < Missing(f, frames, calls, target)
    ensures Missing(f, frames, calls + 1, target) < Missing(f, frames, calls, target)
  {
    var a := Avail(f, 0, calls * frames);
    AvailExact(f, 0, calls * frames, a);
    MulMono(a + 1, target, f.num);
    Distribute(a, 1, f.num);
    Distribute(calls, 1, frames);
    Distribute(calls * frames, frames, f.den);
    MulMono(1, frames, f.den);
  }

  // The resampler, applying f, has been fed the first n blocks and has made m frames.
  ghost predicate Tuned(r: ResamplerImplementation, p: Plan, f: Filter, n: nat, m: nat)
    reads r, r.spx, r.spx.mem, r.spx.sincTable
  {
    && r.Valid() && r.spx.RatesOk() && r.spx.Design() == f
    && r.inputFrameCount == p.frames && r.inputChannels == p.inChannels
    && r.fed == Played(p.callback, n) && r.made == m
  }

  lemma TunedIs(r: ResamplerImplementation, p: Plan, f: Filter, n: nat, m: nat)
    requires Tuned(r, p, f, n, m)
    ensures r.Valid() && r.spx.RatesOk() && r.spx.Design() == f
    ensures r.inputFrameCount == p.frames && r.inputChannels == p.inChannels
    ensures r.fed == Played(p.callback, n) && r.made == m && |r.fed| == n
  {
  }

  lemma IsTuned(r: ResamplerImplementation, p: Plan, f: Filter, n: nat, m: nat)
    requires r.Valid() && r.spx.RatesOk() && r.spx.Design() == f
    requires r.inputFrameCount == p.frames && r.inputChannels == p.inChannels
    requires r.fed == Played(p.callback, n) && r.made == m
    ensures Tuned(r, p, f, n, m)
  {
  }

  lemma MinFacts(a: int, b: int)
    ensures Min(a, b) <= a && Min(a, b) <= b && (Min(a, b) == a || Min(a, b) == b)
  {
  }

  lemma RowRoom(n: nat, max: nat, d: pos, length: nat)
    requires n <= max && Span(max, d) <= length
    ensures Slot(0, n, d, 0) + (max - n) * d <= length
  {
    Distribute(max, n, d);
  }

  lemma SpanIs(n: nat, d: pos)
    ensures Span(n, d) == n * d
  {
  }

  // The first half of a turn of refillOutputBuffer's loop: what the resampler has, as far as it
  // is wanted.
  method PlayQueue(p: Plan, r: ResamplerImplementation, ws: array<real>, got: nat, required: nat, ghost f: Filter,
                   ghost n: nat, ghost first: nat)
    returns (now: nat)
    requires p.rate == Changed(f) && Tuned(r, p, f, n, first + got) && ws != r.spx.mem && ws != r.spx.sincTable
    requires got <= required && Span(required, p.inChannels) <= ws.Length && Worked(p, first, got, ws[..])
    modifies r`queue, r`doneQueue, r`offset, r`made, ws
    modifies r.spx`lastSample, r.spx`sampFracNum, r.spx`magicSamples, r.spx`started, r.spx`inStride, r.spx`outStride,
             r.spx.mem
    ensures Tuned(r, p, f, n, first + now) && Worked(p, first, now, ws[..])
    ensures got <= now <= required && first + now <= Avail(f, 0, n * p.frames)
    ensures now < required ==> r.queue == [] && Avail(f, 0, n * p.frames) == first + now
    ensures |r.queue| <= |old(r.queue)|
  {
    hide *;
    TunedIs(r, p, f, n, first + got);
    RowRoom(got, required, p.inChannels, ws.Length);
    ghost var was := ws[..];
    var count := r.Write(ws, Slot(0, got, p.inChannels, 0), required - got);
    MinFacts(required - got, Avail(f, 0, n * p.frames) - (first + got));
    IsTuned(r, p, f, n, first + got + count);
    WorkedMore(p, f, first, got, count, n, was, ws[..]);
    now := got + count;
  }

  // No block beyond the last was asked for before it was needed.
  ghost predicate Needed(f: Filter, frames: pos, calls: nat, target: nat) {
    calls > 0 ==> Avail(f, 0, (calls - 1) * frames) < target
  }

  lemma NeededStart(f: Filter, frames: pos, calls: nat, made: nat, target: nat)
    requires Lazy(f, frames, calls, made) && made <= target
    ensures Needed(f, frames, calls, target)
  {
  }

  lemma NeededMore(f: Filter, frames: pos, calls: nat, target: nat)
    requires Avail(f, 0, calls * frames) < target
    ensures Needed(f, frames, calls + 1, target)
  {
  }

  lemma NeededLazy(f: Filter, frames: pos, calls: nat, made: nat)
    requires Needed(f, frames, calls, made) && made <= Avail(f, 0, calls * frames)
    ensures Lazy(f, frames, calls, made)
  {
  }

  class SampleFormatConverter {
    const plan: Plan
    const inputSr: pos
    const outputSr: pos
    const outputFrames: pos
    const inputBuffer: array<real>
    const outputBuffer: array<real>
    const workspace: array<real>
    const resampler: ResamplerImplementation?
    var consumedOutputFrames: nat

    // How often the callback has run.
    var calls: nat

    // How often the output buffer has been filled, frames ever put into it, and frames ever
    // handed out.
    ghost var refills: nat
    ghost var filled: nat
    ghost var delivered: nat

    ghost predicate BuffersOk() {
      && PlanOk(plan)
      && Span(plan.frames, plan.inChannels) <= inputBuffer.Length
      && Span(outputFrames, plan.outChannels) <= outputBuffer.Length
      && Span(outputFrames, plan.inChannels) <= workspace.Length
      && inputBuffer != outputBuffer && inputBuffer != workspace && outputBuffer != workspace
    }

    constructor (plan: Plan, inputSr: pos, outputSr: pos, outputFrames: pos, resampler: ResamplerImplementation?)
      requires PlanOk(plan)
      requires plan.rate == Same ==> inputSr == outputSr && outputFrames == plan.frames
      requires plan.rate.Changed? ==>
                 inputSr != outputSr && resampler != null && Tuned(resampler, plan, plan.rate.f, 0, 0)
                     && resampler.queue == []
      ensures Idle() && calls == 0 && delivered == 0
      ensures this.plan == plan && this.resampler == resampler && this.outputFrames == outputFrames
      ensures this.inputSr == inputSr && this.outputSr == outputSr
      ensures fresh(inputBuffer) && fresh(outputBuffer) && fresh(workspace)
    {
      hide Tuned, Lazy, Holding, PlanOk, Span;
      this.plan, this.inputSr, this.outputSr := plan, inputSr, outputSr;
      this.outputFrames, this.resampler := outputFrames, resampler;
      inputBuffer := new real[Span(plan.frames, plan.inChannels)](_ => 0.0);
      outputBuffer := new real[Span(outputFrames, plan.outChannels)](_ => 0.0);
      workspace := new real[Span(outputFrames, plan.inChannels)](_ => 0.0);
      consumedOutputFrames, calls, refills, filled, delivered := outputFrames, 0, 0, 0, 0;
      new;
      NothingYet(plan, outputFrames, outputBuffer[..]);
      if plan.rate.Changed? { LazyAtFirst(plan.rate.f, plan.frames); }
    }

    // The user's callback, which fills a buffer with one block.
    method Callback(buffer: array<real>)
      requires PlanOk(plan) && Span(plan.frames, plan.inChannels) <= buffer.Length
      modifies this`calls, buffer
      ensures calls == old(calls) + 1
      ensures buffer[..Span(plan.frames, plan.inChannels)] == plan.callback(old(calls))
    {
      var block := plan.callback(calls);
      for i := 0 to |block|
        invariant buffer[..i] == block[..i] && calls == old(calls)
      {
        buffer[i] := block[i];
      }
      assert block[..|block|] == block;
      calls := calls + 1;
    }

    lemma BufferSizes()
      requires BuffersOk()
      ensures PlanOk(plan)
      ensures Span(plan.frames, plan.inChannels) <= inputBuffer.Length
      ensures Span(outputFrames, plan.outChannels) <= outputBuffer.Length
      ensures Span(outputFrames, plan.inChannels) <= workspace.Length
      ensures inputBuffer != outputBuffer && inputBuffer != workspace && outputBuffer != workspace
    {
    }

    // One block from the callback to the resampler.
    method PullBlock(r: ResamplerImplementation, ghost f: Filter, ghost m: nat)
      requires BuffersOk() && Tuned(r, plan, f, calls, m) && inputBuffer != r.spx.mem && inputBuffer != r.spx.sincTable
      modifies this`calls, inputBuffer, r`queue, r`doneQueue, r`fed
      ensures Tuned(r, plan, f, calls, m)
      ensures calls == old(calls) + 1 && |r.queue| == |old(r.queue)| + 1
    {
      hide *;
      BufferSizes();
      TunedIs(r, plan, f, calls, m);
      SpanIs(plan.frames, plan.inChannels);
      PlayedMore(plan.callback, calls);
      Callback(inputBuffer);
      r.Read(inputBuffer);
      IsTuned(r, plan, f, calls, m);
    }

    // The second half of a turn: another block, if there is not enough yet.
    method PullIfNeeded(r: ResamplerImplementation, got: nat, ghost f: Filter)
      requires BuffersOk() && Tuned(r, plan, f, calls, filled + got) && inputBuffer != r.spx.mem
               && inputBuffer != r.spx.sincTable && got <= outputFrames
      requires |r.queue| <= 1 && Needed(f, plan.frames, calls, filled + outputFrames)
      requires got < outputFrames ==> r.queue == [] && Avail(f, 0, calls * plan.frames) == filled + got
      modifies this`calls, inputBuffer, r`queue, r`doneQueue, r`fed
      ensures Tuned(r, plan, f, calls, filled + got)
      ensures |r.queue| <= 1 && Needed(f, plan.frames, calls, filled + outputFrames)
      ensures if got < outputFrames
              then 0 < Missing(f, plan.frames, old(calls), filled + outputFrames)
                   && Missing(f, plan.frames, calls, filled + outputFrames)
                      < Missing(f, plan.frames, old(calls), filled + outputFrames)
              else calls == old(calls)
    {
      hide *;
      if got < outputFrames {
        NeededMore(f, plan.frames, calls, filled + outputFrames);
        OneBlockCloser(f, plan.frames, calls, filled + outputFrames);
        PullBlock(r, f, filled + got);
      }
    }

    // refillOutputBuffer's loop: plays the resampler's queue and pulls a block whenever that is
    // not enough, until the workspace is full.
    method Resample(r: ResamplerImplementation, ghost f: Filter)
      requires BuffersOk() && plan.rate == Changed(f) && Tuned(r, plan, f, calls, filled)
      requires inputBuffer != r.spx.mem && inputBuffer != r.spx.sincTable && workspace != r.spx.mem
               && workspace != r.spx.sincTable
      requires Lazy(f, plan.frames, calls, filled) && |r.queue| <= 1
      modifies this`calls, inputBuffer, workspace
      modifies r`queue, r`doneQueue, r`offset, r`made, r`fed
      modifies r.spx`lastSample, r.spx`sampFracNum, r.spx`magicSamples, r.spx`started, r.spx`inStride, r.spx`outStride,
               r.spx.mem
      ensures Tuned(r, plan, f, calls, filled + outputFrames) && Worked(plan, filled, outputFrames, workspace[..])
      ensures Lazy(f, plan.frames, calls, filled + outputFrames) && |r.queue| <= 1
    {
      hide *;
      BufferSizes();
      NeededStart(f, plan.frames, calls, filled, filled + outputFrames);
      WorkedNone(filled, workspace[..]);
      var got: nat := 0;
      while got < outputFrames
        invariant got <= outputFrames && |r.queue| <= 1
        invariant Tuned(r, plan, f, calls, filled + got) && Worked(plan, filled, got, workspace[..])
        invariant Needed(f, plan.frames, calls, filled + outputFrames)
        invariant got == outputFrames ==> filled + got <= Avail(f, 0, calls * plan.frames)
        decreases Missing(f, plan.frames, calls, filled + outputFrames), outputFrames - got
      {
        got := PlayQueue(plan, r, workspace, got, outputFrames, f, calls, filled);
        PullIfNeeded(r, got, f);
      }
      NeededLazy(f, plan.frames, calls, filled + outputFrames);
    }

    lemma WorkedNone(first: nat, ws: seq<real>)
      ensures Worked(plan, first, 0, ws)
    {
    }

    ghost function Footprint(): set<object>
      reads resampler, if resampler == null then {} else {resampler.spx}
    {
      if resampler == null then {}
      else
        var r: ResamplerImplementation := resampler;
        {r, r.spx, r.spx.mem, r.spx.sincTable}
    }

    // How the frames in the output buffer so far relate to the callback's blocks so far.
    ghost predicate Sound()
      reads `calls, `filled, resampler, if resampler == null then {} else {resampler.spx}, Footprint()
    {
      match plan.rate
      case Same => inputSr == outputSr && outputFrames == plan.frames && filled == Span(calls, plan.frames)
      case Changed(f) =>
        && inputSr != outputSr && resampler != null
        && Tuned(resampler, plan, f, calls, filled)
        && Lazy(f, plan.frames, calls, filled) && |resampler.queue| <= 1
        && inputBuffer != resampler.spx.mem && inputBuffer != resampler.spx.sincTable
        && workspace != resampler.spx.mem && workspace != resampler.spx.sincTable
        && outputBuffer != resampler.spx.mem && outputBuffer != resampler.spx.sincTable
    }

    // What the output buffer still holds is the stream from the next frame to be handed out on.
    ghost predicate Valid()
      reads this, outputBuffer, resampler, if resampler == null then {} else {resampler.spx}, Footprint()
    {
      && BuffersOk() && Sound()
      && consumedOutputFrames <= outputFrames && delivered + outputFrames - consumedOutputFrames == filled
      && filled == Span(refills, outputFrames)
      && Holding(plan, delivered, consumedOutputFrames, outputFrames, outputBuffer[..])
    }

    // Without resampling: a block goes straight to the output buffer, or through the remix.
    method RefillSame()
      requires BuffersOk() && plan.rate == Same && outputFrames == plan.frames && filled == Span(calls, plan.frames)
      modifies this`calls, inputBuffer, outputBuffer
      ensures calls == old(calls) + 1
      ensures Holding(plan, filled, 0, outputFrames, outputBuffer[..])
    {
      hide *;
      BufferSizes();
      SpanIs(calls, plan.frames);
      BlockWorked(plan, calls);
      BlockLength(calls);
      ghost var block := plan.callback(calls);
      if plan.inChannels == plan.outChannels {
        Callback(outputBuffer);
        assert outputBuffer[..][..Span(plan.frames, plan.inChannels)]
            == outputBuffer[..Span(plan.frames, plan.inChannels)];
        assert block[..Span(plan.frames, plan.inChannels)] == block;
        WorkedHolds(plan, filled, outputFrames, block, outputBuffer[..]);
      } else {
        Callback(inputBuffer);
        assert inputBuffer[..][..Span(plan.frames, plan.inChannels)]
            == inputBuffer[..Span(plan.frames, plan.inChannels)];
        WorkedPrefix(plan, filled, outputFrames, inputBuffer[..], block);
        RemixInterleaved(plan, outputFrames, inputBuffer, outputBuffer, filled);
      }
    }

    lemma BlockLength(b: nat)
      requires PlanOk(plan)
      ensures |plan.callback(b)| == Span(plan.frames, plan.inChannels)
    {
    }

    // With resampling: the workspace is filled first.
    method RefillChanged(r: ResamplerImplementation, ghost f: Filter)
      requires BuffersOk() && plan.rate == Changed(f) && Tuned(r, plan, f, calls, filled)
      requires inputBuffer != r.spx.mem && inputBuffer != r.spx.sincTable && workspace != r.spx.mem
               && workspace != r.spx.sincTable
      requires outputBuffer != r.spx.mem && outputBuffer != r.spx.sincTable
      requires Lazy(f, plan.frames, calls, filled) && |r.queue| <= 1
      modifies this`calls, inputBuffer, workspace, outputBuffer
      modifies r`queue, r`doneQueue, r`offset, r`made, r`fed
      modifies r.spx`lastSample, r.spx`sampFracNum, r.spx`magicSamples, r.spx`started, r.spx`inStride, r.spx`outStride,
               r.spx.mem
      ensures Tuned(r, plan, f, calls, filled + outputFrames)
      ensures Lazy(f, plan.frames, calls, filled + outputFrames) && |r.queue| <= 1
      ensures Holding(plan, filled, 0, outputFrames, outputBuffer[..])
    {
      hide *;
      BufferSizes();
      Resample(r, f);
      if plan.inChannels == plan.outChannels {
        CopySamples(workspace, 0, Span(outputFrames, plan.outChannels), outputBuffer, 0);
        CopiedPrefix(workspace[..], outputBuffer[..], Span(outputFrames, plan.inChannels));
        WorkedHolds(plan, filled, outputFrames, workspace[..], outputBuffer[..]);
      } else {
        RemixInterleaved(plan, outputFrames, workspace, outputBuffer, filled);
      }
    }

    lemma SoundIs()
      requires Sound()
      ensures inputSr == outputSr <==> plan.rate == Same
      ensures inputSr == outputSr ==> outputFrames == plan.frames && filled == Span(calls, plan.frames)
      ensures inputSr != outputSr ==>
                && plan.rate.Changed? && resampler != null
                && Tuned(resampler, plan, plan.rate.f, calls, filled)
                && Lazy(plan.rate.f, plan.frames, calls, filled) && |resampler.queue| <= 1
                && inputBuffer != resampler.spx.mem && inputBuffer != resampler.spx.sincTable
                && workspace != resampler.spx.mem && workspace != resampler.spx.sincTable
                && outputBuffer != resampler.spx.mem && outputBuffer != resampler.spx.sincTable
                && Footprint() == {resampler, resampler.spx, resampler.spx.mem, resampler.spx.sincTable}
    {
    }

    lemma IsSound()
      requires plan.rate == Same ==>
                 inputSr == outputSr && outputFrames == plan.frames && filled == Span(calls, plan.frames)
      requires plan.rate.Changed? ==>
                && inputSr != outputSr && resampler != null
                && Tuned(resampler, plan, plan.rate.f, calls, filled)
                && Lazy(plan.rate.f, plan.frames, calls, filled) && |resampler.queue| <= 1
                && inputBuffer != resampler.spx.mem && inputBuffer != resampler.spx.sincTable
                && workspace != resampler.spx.mem && workspace != resampler.spx.sincTable
                && outputBuffer != resampler.spx.mem && outputBuffer != resampler.spx.sincTable
      ensures Sound()
    {
    }

    lemma ValidIs()
      requires Valid()
      ensures BuffersOk() && Sound()
      ensures consumedOutputFrames <= outputFrames && delivered + outputFrames - consumedOutputFrames == filled
      ensures filled == Span(refills, outputFrames)
      ensures Holding(plan, delivered, consumedOutputFrames, outputFrames, outputBuffer[..])
    {
    }

    lemma IsValid()
      requires BuffersOk() && Sound()
      requires consumedOutputFrames <= outputFrames && delivered + outputFrames - consumedOutputFrames == filled
      requires filled == Span(refills, outputFrames)
      requires Holding(plan, delivered, consumedOutputFrames, outputFrames, outputBuffer[..])
      ensures Valid()
    {
    }

    // refillOutputBuffer: the next outputFrames frames of the stream.
    method RefillOutputBuffer()
      requires Valid() && consumedOutputFrames == outputFrames
      modifies this`calls, this`consumedOutputFrames, this`refills, this`filled, inputBuffer, outputBuffer, workspace,
               Footprint()
      ensures Valid() && consumedOutputFrames == 0 && refills == old(refills) + 1 && delivered == old(delivered)
      ensures Footprint() == old(Footprint())
    {
      hide *;
      ValidIs();
      SoundIs();
      if inputSr == outputSr {
        SpanMore(calls, plan.frames);
        RefillSame();
      } else {
        RefillChanged(resampler, plan.rate.f);
      }
      SpanMore(refills, outputFrames);
      filled, refills := filled + outputFrames, refills + 1;
      consumedOutputFrames := 0;
      IsSound();
      SoundIs();
      IsValid();
    }

    lemma SpanMore(n: nat, d: pos)
      ensures Span(n + 1, d) == Span(n, d) + d
    {
      Distribute(n, 1, d);
    }

    ghost predicate Separate(buffer: array<real>)
      reads resampler, if resampler == null then {} else {resampler.spx}
    {
      buffer != inputBuffer && buffer != outputBuffer && buffer != workspace && buffer !in Footprint()
    }

    // Between writes something of the last filling has always been handed out.
    ghost predicate Idle()
      reads this, outputBuffer, resampler, if resampler == null then {} else {resampler.spx}, Footprint()
    {
      Valid() && consumedOutputFrames > 0
    }

    // The callback has run exactly as often as the frames handed out call for: the output buffer
    // is filled as often as it has to be, and no more blocks are pulled than that takes.
    lemma CallbackRunsLeast()
      requires Idle()
      ensures Span(refills, outputFrames) >= delivered
      ensures refills > 0 ==> Span(refills - 1, outputFrames) < delivered
      ensures plan.rate == Same ==> calls == refills
      ensures plan.rate.Changed? ==>
                calls == if refills == 0 then 0
                         else BlocksFor(plan.rate.f, plan.frames, Span(refills, outputFrames) - 1)
    {
      ValidIs();
      SoundIs();
      if refills > 0 {
        SpanMore(refills - 1, outputFrames);
      }
      if plan.rate == Same {
        SameSpan(calls, refills, outputFrames);
      } else {
        LazyIsLeast(plan.rate.f, plan.frames, calls, filled);
      }
      hide Valid, Sound, Tuned, Lazy, BlocksFor;
    }

    lemma SameSpan(a: nat, b: nat, d: pos)
      requires Span(a, d) == Span(b, d)
      ensures a == b
    {
      DivModUnique(Span(a, d), a, 0, d);
      DivModUnique(Span(b, d), b, 0, d);
    }

    // One turn of write: a piece of what the output buffer holds.
    method HandOut(buffer: array<real>, b0: nat, frames: nat, written: nat, willWrite: pos, ghost first: nat,
                   ghost was: seq<real>)
      requires Valid() && Separate(buffer) && b0 + Span(frames, plan.outChannels) <= buffer.Length
      requires written + willWrite <= frames && consumedOutputFrames + willWrite <= outputFrames
      requires delivered == first + written && Given(plan, first, written, b0, was, buffer[..])
      modifies this`consumedOutputFrames, this`delivered, buffer
      ensures Valid() && delivered == first + written + willWrite
      ensures consumedOutputFrames == old(consumedOutputFrames) + willWrite
      ensures Given(plan, first, written + willWrite, b0, was, buffer[..])
    {
      hide *;
      ValidIs();
      SoundIs();
      BufferSizes();
      SeparateIs(buffer);
      PieceFits(b0, written, willWrite, frames, plan.outChannels);
      PieceFits(0, consumedOutputFrames, willWrite, outputFrames, plan.outChannels);
      SlotSpan(consumedOutputFrames, plan.outChannels);
      ghost var now := buffer[..];
      CopySamples(outputBuffer, Span(consumedOutputFrames, plan.outChannels), Span(willWrite, plan.outChannels),
                  buffer, Slot(b0, written, plan.outChannels, 0));
      GivenMore(plan, first, written, b0, was, now, outputBuffer[..], consumedOutputFrames, outputFrames, willWrite,
                buffer[..]);
      consumedOutputFrames, delivered := consumedOutputFrames + willWrite, delivered + willWrite;
      IsSound();
      IsValid();
    }

    /**
     write: hands out the next `frames` frames of the converted stream, in order, whatever the
     sizes of earlier writes were; the callback runs when the output buffer is used up.
     */
    method Write(frames: nat, buffer: array<real>, b0: nat)
      requires Idle() && Separate(buffer) && b0 + Span(frames, plan.outChannels) <= buffer.Length
      modifies this`calls, this`consumedOutputFrames, this`refills, this`filled, this`delivered
      modifies inputBuffer, outputBuffer, workspace, buffer, Footprint()
      ensures Idle() && Footprint() == old(Footprint())
      ensures delivered == old(delivered) + frames
      ensures Given(plan, old(delivered), frames, b0, old(buffer[..]), buffer[..])
    {
      hide *;
      IdleIs();
      ValidIs();
      GivenNone(plan, delivered, b0, buffer[..]);
      var written: nat := 0;
      while written != frames
        invariant written <= frames && Valid() && Separate(buffer) && Footprint() == old(Footprint())
        invariant consumedOutputFrames <= outputFrames && (written == frames ==> consumedOutputFrames > 0)
        invariant delivered == old(delivered) + written
        invariant Given(plan, old(delivered), written, b0, old(buffer[..]), buffer[..])
        decreases frames - written, consumedOutputFrames
      {
        MinFacts(frames - written, outputFrames - consumedOutputFrames);
        SeparateIs(buffer);
        var willWrite := Min(frames - written, outputFrames - consumedOutputFrames);
        if willWrite <= 0 {
          RefillOutputBuffer();
          IsSeparate(buffer);
        } else {
          HandOut(buffer, b0, frames, written, willWrite, old(delivered), old(buffer[..]));
          ValidIs();
          IsSeparate(buffer);
          written := written + willWrite;
        }
      }
      IsIdle();
    }

    lemma IdleIs()
      requires Idle()
      ensures Valid() && consumedOutputFrames > 0
    {
    }

    lemma IsIdle()
      requires Valid() && consumedOutputFrames > 0
      ensures Idle()
    {
    }

    lemma SeparateIs(buffer: array<real>)
      requires Separate(buffer)
      ensures buffer != inputBuffer && buffer != outputBuffer && buffer != workspace && buffer !in Footprint()
    {
    }

    lemma IsSeparate(buffer: array<real>)
      requires buffer != inputBuffer && buffer != outputBuffer && buffer != workspace && buffer !in Footprint()
      ensures Separate(buffer)
    {
    }
  }

  lemma PieceFits(o: nat, n: nat, more: nat, max: nat, d: pos)
    requires n + more <= max
    ensures Slot(o, n, d, 0) + Span(more, d) <= o + Span(max, d)
  {
    Distribute(n, more, d);
    MulMono(n + more, max, d);
  }

  lemma SlotSpan(n: nat, d: pos)
    ensures Slot(0, n, d, 0) == Span(n, d)
  {
  }

  lemma CopiedPrefix(src: seq<real>, dst: seq<real>, n: nat)
    requires n <= |src| && n <= |dst| && forall i: nat :: i < n ==> dst[i] == At(src, i - 0 + 0)
    ensures dst[..n] == src[..n]
  {
  }

  lemma NothingYet(p: Plan, n: nat, out: seq<real>)
    ensures Holding(p, 0, n, n, out) && Span(0, p.frames) == 0 && (n > 0 ==> Span(0, n) == 0)
  {
  }

  lemma LazyAtFirst(f: Filter, frames: pos)
    ensures Lazy(f, frames, 0, 0)
  {
  }

  lemma LengthAtLeastZero(frames: pos, inSr: pos, outSr: pos)
    ensures frames * outSr / inSr >= 0
  {
    MulMono(0, frames, outSr);
    StartsBefore(frames * outSr, 0, inSr);
  }

  // The constructor of the source; null stands for an exception from the resampler.
  method Create(callback: nat -> seq<real>, inputFrames: pos, inputChannels: pos, inputSr: pos, outputChannels: pos,
                outputSr: pos, remix: seq<real> -> seq<real>, sinc: Sinc, sincAllocOk: bool, memAllocOk: bool)
    returns (c: SampleFormatConverter?, ghost num: pos, ghost den: pos)
    requires forall b: nat :: |callback(b)| == Span(inputFrames, inputChannels)
    ensures inputSr == outputSr ==> c != null
    ensures inputSr != outputSr ==>
              && SameRatio(num, den, inputSr, outputSr) && Coprime(num, den)
              && (c != null <==> Affordable(1, num, den, inputChannels, 160, 0, 0, sincAllocOk, memAllocOk))
    ensures c != null ==>
              && fresh(c) && fresh(c.inputBuffer) && fresh(c.outputBuffer) && fresh(c.workspace) && fresh(c.Footprint())
              && c.Idle() && c.calls == 0 && c.delivered == 0
              && c.plan == Plan(callback, inputFrames, inputChannels, outputChannels, remix, c.plan.rate)
              && c.inputSr == inputSr && c.outputSr == outputSr
              && (inputSr == outputSr <==> c.plan.rate == Same)
              && (inputSr != outputSr ==> DesignedFilter(c.plan.rate.f, sinc, 1, num, den))
              && c.outputFrames == (if inputSr == outputSr || inputFrames * outputSr / inputSr == 0 then inputFrames
                                    else inputFrames * outputSr / inputSr)
  {
    hide AllFollow, Framed, SameRatio, Coprime, Affordable, DesignedFilter, Resampler.Ready, Resampler.Design,
         Resampler.Chans;
    num, den := 1, 1;
    if inputSr == outputSr {
      c := new SampleFormatConverter(Plan(callback, inputFrames, inputChannels, outputChannels, remix, Same),
                                     inputSr, outputSr, inputFrames, null);
    } else {
      var r;
      r, num, den := CreateResampler(inputFrames, inputChannels, inputSr, outputSr, sinc, sincAllocOk, memAllocOk);
      if r == null {
        return null, num, den;
      }
      r.QueuedIs();
      LengthAtLeastZero(inputFrames, inputSr, outputSr);
      var resamplerLength: nat := inputFrames * outputSr / inputSr;
      if resamplerLength == 0 {
        resamplerLength := inputFrames;
      }
      c := new SampleFormatConverter(Plan(callback, inputFrames, inputChannels, outputChannels, remix,
                                          Changed(r.spx.Design())),
                                     inputSr, outputSr, resamplerLength, r);
    }
  }
}
