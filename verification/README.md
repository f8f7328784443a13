# Resampler, output pipeline and thread pool

A Dafny model of the parts of the audio output library that have to be exactly right:

* **The Speex resampler as a streaming machine.** `SpeexResampler` models the state with its flat
  sample memory, coefficient table and per-channel counters, and the methods that process samples
  and change rates and quality in place. `Polyphase` is the ideal: one polyphase filter on one
  stream. `Channel` says what a call does to one channel, and proves that any way of cutting up the
  calls gives the ideal stream. `FilterLength` does the same for a change of filter length in
  mid-stream, `FilterDesign` for the choice of filter and rates, `Coefficients` says what the weights
  of that filter are worth. `Chunks`, `Blocks`, `Realigning`,
  `Strided` and `Arithmetic` carry the proofs that the in-place methods do what these say.
* **What is built on it.** `Frames` turns per-channel streams into interleaved frames;
  `StreamResampler` is the block queue in front of the resampler, `StaticResampler` the one-shot
  function, `SampleFormatConverter` (over `ConverterStream`) the pull converter.
* **The mixahead pipeline.** `Semaphore` is the lightweight semaphore for any number of threads;
  `Pipeline` is the worker thread, the I/O thread and the destructor over two bounded queues;
  `OutputStream` composes it with the converter.
* **The thread pool.** `ThreadsafeQueue` is the queue under its lock; `ThreadPool` is the submitter,
  the workers and the barriers.

Sequential code is modelled by classes and methods over arrays and mutable fields, proved against
functions on sequences. Threads are modelled as transition systems whose steps are the atomic
operations of the source; results about them hold for every interleaving. `dafny verify
dfyconfig.toml` checks the whole project.

Positions are integers that count 1/den_rate of an input sample, so `last_sample` and
`samp_frac_num` are the two digits of one number. A channel is the samples it holds (history, then
magic samples) and its position. Samples and coefficients are real numbers, and the windowed sinc is
an arbitrary function. Allocation outcomes, the caller's callback and the remix of one frame are
parameters.

`Resampler.Ready` is the invariant of the resampler between calls: for every channel
filt_len - 1 + 2 * magic_samples + buffer_size <= mem_alloc_size, positions are in range, every table
entry the chosen kernel reads is set, the filter is the one the rates and the quality call for (unless
the zero kernel stands in for it), and the rates are in lowest terms. Every method keeps it on every
path, the failing ones included, so all array accesses are in bounds over any run of calls.

Where comments and code of the source disagree the model follows the code:

* `update_filter` calls its treatment of magic samples when growing wrong
  (speex_resampler_cpp/src/speex_resampler.c:737). In exact arithmetic it is not: the samples end up
  where they belong, and `RealignKeepsAlignment` proves it for all three branches.
* The header asks for `write` to be called from the audio thread only
  (include/audio_io/private/output_worker_thread.hpp:35); the audio thread of its own terms is the worker,
  which never calls it. The model's caller is the I/O thread.
* The worker's blocks have `sourceFrames*destinationSr/sourceSr` frames, which can be zero; a write
  then returns nothing although buffers are prepared, against the comment that a short return means too
  little data. `OnlyUnderrunsAreShortIff` and `ShortIsUnderrunIff` give the exact condition, and
  `EmptyBlockEndsShort` the run that shows it fails without.

## Model

| member | source | states |
|---|---|---|
| Polyphase.AvailExact | speex_resampler_cpp/src/speex_resampler.c:354-389 | Output k starts before sample n exactly when k is below the count `Avail`, which is therefore the number of outputs the kernel loop condition admits. |
| Polyphase.AvailUnique | speex_resampler_cpp/src/speex_resampler.c:354-389 | No other number separates the outputs that start before sample n from the rest. |
| Polyphase.AvailAdvance | speex_resampler_cpp/src/speex_resampler.c:867-891 | Dropping passed samples and counting the position from the first sample not passed takes exactly the outputs already made off the number still available. |
| Polyphase.TapLocal | speex_resampler_cpp/src/speex_resampler.c:354-389 | An output depends on nothing but the filt_len samples of its window, for every kernel. |
| Polyphase.OutputsSlice | speex_resampler_cpp/src/speex_resampler.c:867-891 | A run of outputs read through the sliding memory is the run read from the whole stream at the shifted position. |
| Arithmetic.Carry | speex_resampler_cpp/src/speex_resampler.c:382-388 | Adding int_advance and frac_advance with one carry is exactly one step of num_rate in the two-digit position. |
| Channel.PassedFacts | speex_resampler_cpp/src/speex_resampler.c:867-891 | One kernel run never passes its own position, passes all its input unless output room ran out, and, given input and room, always passes a sample or makes an output. |
| Channel.ProcessFacts | speex_resampler_cpp/src/speex_resampler.c:916-952 | Where a call ends: position advanced by exactly the outputs made and the samples dropped (phase conservation), memory a contiguous later stretch of what was held and offered, input left over only when room ran out, none taken while magic samples remain. |
| Channel.MagicIsEarlierInput | speex_resampler_cpp/src/speex_resampler.c:893-911 | Holding samples back as magic gives the same outputs and end position as offering them as input; if room runs out first, no input is consumed and the remaining magic samples are kept in order. |
| Channel.KernelsAdvanceAlike | speex_resampler_cpp/src/speex_resampler.c:341-600 | A call takes the same input, makes as many outputs and leaves the same channel state whichever kernel is chosen, the zero kernel included. The loop the five kernels repeat is written once in the model, so that their loops agree is read off the source, not proved; what is proved is that nothing around the loop depends on the kernel. |
| Channel.ProcessFollows | speex_resampler_cpp/src/speex_resampler.c:916-952 | Offered the next samples of its stream, a channel on the stream puts out the next ideal outputs and is still on it. |
| Channel.RunFollows | speex_resampler_cpp/src/speex_resampler.c:916-952 | The same over any sequence of calls, from any place on the stream, magic samples included. |
| Channel.RunKeepsMagic | speex_resampler_cpp/src/speex_resampler.c:893-952 | No sequence of calls ever creates magic samples. |
| Channel.StreamingRefinement | speex_resampler_cpp/src/speex_resampler.c:341-394 | From a fresh state, for any input, any sequence of call sizes and any internal chunk size: the concatenated output is a prefix of the ideal output of N-1 zeros and the input, memory holds the N-1 samples before the next unread one, position + consumed = produced exactly, and once the position has passed the input the prefix is the whole. |
| Chunks.ChunkStep | speex_resampler_cpp/src/speex_resampler.c:930-947 | One turn of the chunk loop keeps the call on the unchunked run and makes or takes something, so the loop ends. |
| Chunks.ChunkOutputs | speex_resampler_cpp/src/speex_resampler.c:930-947 | The outputs of a chunk are the next outputs of the unchunked run. |
| Chunks.MagicThenInput | speex_resampler_cpp/src/speex_resampler.c:927-948 | Draining the magic samples and then going on with the input is one call over both: same outputs, same samples taken, same end state. |
| Chunks.MagicKept | speex_resampler_cpp/src/speex_resampler.c:893-911 | If room runs out while magic samples are left, the call is the drain alone and touches no input. |
| FilterLength.RealignKeepsAlignment | speex_resampler_cpp/src/speex_resampler.c:718-779 | Any change of filter length keeps every sample still held at the same distance from the middle of the filter, and the next input sample too; the phase is untouched and growing loses nothing. |
| FilterLength.RealignRoom | speex_resampler_cpp/src/speex_resampler.c:706-717 | How many magic samples there are afterwards, and that history plus twice the magic is the larger of what it was and the new history: the allocation stays sufficient. |
| FilterLength.ShrinkThenGrow | speex_resampler_cpp/src/speex_resampler.c:724-779 | Shrinking and growing back restores length, position, magic samples and memory, except that the oldest (old - new)/2 samples are zero. |
| FilterLength.GrowThenShrink | speex_resampler_cpp/src/speex_resampler.c:724-779 | Growing and shrinking back loses nothing; the position moves only by the zero padding. |
| FilterLength.ShrinkTwice | speex_resampler_cpp/src/speex_resampler.c:763-779 | Shrinking in two steps is shrinking in one. |
| FilterLength.RealignedOutputs | speex_resampler_cpp/src/speex_resampler.c:718-779 | Every later output keeps its phase and its centre relative to the next input sample, and sees the same samples at every distance from it, whatever input follows. |
| FilterLength.RateChangeKeepsPosition | speex_resampler_cpp/src/speex_resampler.c:1085-1122 | A change of rates together with the change of filter it brings: held samples and the next input sample keep their distance from the filter middle, and the next output is centred less than 1/den' of a sample from where it would have been. |
| FilterDesign.InterpolationReadsTable | speex_resampler_cpp/src/speex_resampler.c:464-487 | Every table index the interpolating kernels form is one that update_filter has set. |
| FilterDesign.DirectReadsTable | speex_resampler_cpp/src/speex_resampler.c:356-362 | Every table index the direct kernels form is inside the table. |
| FilterDesign.KernelsAgree | speex_resampler_cpp/src/speex_resampler.c:644-698 | On a phase that falls on a table step the interpolating kernel gives exactly the output of the direct one, on every input, for any sinc function. |
| FilterDesign.ReduceRatio | speex_resampler_cpp/src/speex_resampler.c:1098-1106 | The trial-division loop ends with coprime rates in the requested ratio. |
| FilterDesign.LowestTerms | speex_resampler_cpp/src/speex_resampler.c:1098-1106 | Coprime rates divide, by one and the same factor, any others in their ratio: what the reduction ends in are the smallest rates in the ratio and the only coprime ones. |
| FilterDesign.DivideOut | speex_resampler_cpp/src/speex_resampler.c:1101-1105 | The inner loop keeps the ratio, leaves no common divisor up to the trial factor and introduces none below it. |
| FilterDesign.RescaleIsFloor | speex_resampler_cpp/src/speex_resampler.c:1108-1117 | In exact integers, that is as long as the product fits 32 bits: the rescaled phase is the exact one rounded down and below the new denominator, so the safety net never fires. |
| FilterDesign.RescaleWithin32Bits | speex_resampler_cpp/src/speex_resampler.c:1108-1117 | In the 32 bits of the source the safety net still never fires, and the phase is the exact one rounded down if and only if the product does not wrap. |
| FilterDesign.RescaleCanWrap | speex_resampler_cpp/src/speex_resampler.c:1112-1112 | A phase and a denominator for which it wraps and the phase comes out too small. |
| FilterDesign.DesignDetermines | speex_resampler_cpp/src/speex_resampler.c:602-698 | Two filters designed for the same quality, rates and sinc give the same output at every phase of every stream: the design determines the samples. |
| FilterDesign.DesignIsWell | speex_resampler_cpp/src/speex_resampler.c:609-635 | What the design comes to, stated without it: at a lower output rate a length covering as many output periods as the quality's, in whole eights; oversampling halved once for each of the ratios 2, 4, 8, 16 exceeded; a cutoff at the same fraction of the output's band whatever the rates, so below its Nyquist; otherwise the quality's own values. |
| FilterDesign.CutoffScales | speex_resampler_cpp/src/speex_resampler.c:615-634 | cutoff * num = bandwidth * den when down-sampling, which depends on the quality alone, hence cutoff * num < den, and always 0 < cutoff < 1. |
| FilterDesign.LengthCovers | speex_resampler_cpp/src/speex_resampler.c:619-621 | The length is the stretched one rounded up by less than eight. |
| FilterDesign.OversampleHalves | speex_resampler_cpp/src/speex_resampler.c:622-631 | The halvings follow the ratio, and the result is at least one. |
| FilterDesign.ShortestTable | speex_resampler_cpp/src/speex_resampler.c:637-655 | The chosen table is the shorter one unless that is out of range. |
| FilterDesign.QualityColumns | speex_resampler_cpp/src/speex_resampler.c:236-248 | The quality table, column by column. |
| FilterDesign.MaxSamplesFit | speex_resampler_cpp/src/speex_resampler.c:644-645 | The size guard is the largest number of 4-byte samples whose bytes an int holds. |
| FilterDesign.QualityRises | speex_resampler_cpp/src/speex_resampler.c:236-248 | Better quality never means a shorter filter, a coarser table or a narrower band; all bands lie inside the input's. |
| FilterDesign.DesignedIsWell | speex_resampler_cpp/src/speex_resampler.c:602-698 | The table of a designed filter samples the sinc at a cutoff with these properties. |
| Coefficients.CubicMoments | speex_resampler_cpp/src/speex_resampler.c:328-338 | The four weights sum to one and have the first three moments of the point between the table steps, to within the rounding of their constants. |
| Coefficients.WeighIsCubic | speex_resampler_cpp/src/speex_resampler.c:328-338 | Of four samples of any cubic the weights make its value at that point, to within that rounding. |
| Coefficients.StepAndFraction | speex_resampler_cpp/src/speex_resampler.c:464-468 | Step and fraction of a step make up the phase exactly. |
| Coefficients.TapIsWeighted | speex_resampler_cpp/src/speex_resampler.c:354-377 | Every output, whatever the kernel, is the sum over its window of each sample times its weight. |
| Coefficients.InterpolatedCoef | speex_resampler_cpp/src/speex_resampler.c:464-487 | The weight the interpolating kernel gives a sample at every phase, those between table steps included, is the value at the phase of the cubic through the four entries it reads. |
| Coefficients.InterpolatedNodes | speex_resampler_cpp/src/speex_resampler.c:477-483 | Those four entries are the sinc a table step apart around the sample's distance from the output's centre. |
| Coefficients.WindowIsCentred | speex_resampler_cpp/src/speex_resampler.c:673-673 | Every sample of the window lies within half a filter of the output's centre. |
| Coefficients.DirectIsConvolution | speex_resampler_cpp/src/speex_resampler.c:354-377 | An output of the direct kernel is the convolution with the windowed sinc: each sample weighed by the sinc at its distance from the output's centre, at the exact rational time of the output. |
| Strided.ScatterAt | speex_resampler_cpp/src/speex_resampler.c:381-381 | Writing with a stride sets exactly the slots the stride reaches, each to its value. |
| Strided.ScatterChannelsAt | speex_resampler_cpp/src/speex_resampler.c:1028-1046 | After all channels have written, sample c of frame k is output k of channel c; frames past a channel's outputs are as they were. |
| Blocks.MoveDown | speex_resampler_cpp/src/speex_resampler.c:887-888 | The forward in-place copy over overlapping ranges moves the samples as if all had been read first. |
| Blocks.MoveUp | speex_resampler_cpp/src/speex_resampler.c:739-740 | The backward in-place copy does the same when moving up. |
| Blocks.SlideTwice | speex_resampler_cpp/src/speex_resampler.c:893-908 | Moving the history and then the leftover magic samples down by the same distance moves both as one. |
| Realigning.GrowMemory | speex_resampler_cpp/src/speex_resampler.c:729-762 | The in-place moves of both growing branches, old stride to new stride, leave exactly the realigned channel and touch nothing outside its new place. |
| Realigning.GrownPast | speex_resampler_cpp/src/speex_resampler.c:747-755 | The branch for a filter longer than history and doubled magic. |
| Realigning.GrownWithin | speex_resampler_cpp/src/speex_resampler.c:756-761 | The branch that puts back some of the magic. |
| Realigning.Shrunk | speex_resampler_cpp/src/speex_resampler.c:763-779 | The shrinking branch. |
| Realigning.MovedStep | speex_resampler_cpp/src/speex_resampler.c:724-762 | Moving one channel, last first when the stride grows, leaves every channel already moved in its new place and every other one untouched in its old place. |
| SpeexResampler.InnerProductSingle | speex_resampler_cpp/src/speex_resampler.c:356-362 | The single-sum inner product. |
| SpeexResampler.InnerProductDouble | speex_resampler_cpp/src/speex_resampler.c:413-427 | The four-accumulator inner product is the single-sum one, because the length is a multiple of four. |
| SpeexResampler.InterpolateProduct | speex_resampler_cpp/src/speex_resampler.c:464-487 | The four sums and the cubic weights are the interpolating filter at this phase; what that filter is worth is in `Coefficients`. |
| SpeexResampler.Resampler.OutputSample | speex_resampler_cpp/src/speex_resampler.c:354-377 | Through the kernel pointer: the filter this resampler applies, at this phase and window. |
| SpeexResampler.Resampler.KernelLoop | speex_resampler_cpp/src/speex_resampler.c:341-394 | The kernel loop makes exactly the outputs that start before the end of the input, as far as there is room, and carries the position exactly. |
| SpeexResampler.Resampler.ProcessNative | speex_resampler_cpp/src/speex_resampler.c:867-891 | Counts, new position, in-place slide of the history and outputs of one kernel run; all invariants kept. |
| SpeexResampler.Resampler.ProcessMagic | speex_resampler_cpp/src/speex_resampler.c:893-911 | The same for magic samples run where they lie; those not passed end up right behind the history, in order, and nothing outside the channel is touched. |
| SpeexResampler.Resampler.ProcessChunk | speex_resampler_cpp/src/speex_resampler.c:930-947 | One turn of the chunk loop, input copied in behind the history. |
| SpeexResampler.Resampler.ProcessInput | speex_resampler_cpp/src/speex_resampler.c:930-948 | The chunk loop refines the unchunked call on the channel. |
| SpeexResampler.Resampler.ProcessFloat | speex_resampler_cpp/src/speex_resampler.c:916-952 | The whole call refines the one-channel specification: channel, counts, outputs at their strided places; no other channel, no other output slot changes. |
| SpeexResampler.Resampler.ProcessInterleaved | speex_resampler_cpp/src/speex_resampler.c:1028-1049 | Every channel gets its own call on its own samples, strides are restored, the counts are the last channel's, channels in lockstep stay in lockstep, and a ready resampler stays ready. |
| SpeexResampler.CallLevel | speex_resampler_cpp/src/speex_resampler.c:1028-1049 | For channels in lockstep the returned counts hold for every channel. |
| SpeexResampler.InterleavedIsMono | speex_resampler_cpp/src/speex_resampler.c:1028-1049 | Interleaved processing equals de-interleaving, one mono call per channel, and interleaving again. |
| SpeexResampler.Resampler.GrowChannel | speex_resampler_cpp/src/speex_resampler.c:724-762 | One channel follows a longer filter in place. |
| SpeexResampler.Resampler.ShrinkChannel | speex_resampler_cpp/src/speex_resampler.c:763-779 | One channel follows a shorter filter in place. |
| SpeexResampler.Resampler.GrowChannels | speex_resampler_cpp/src/speex_resampler.c:724-762 | All channels follow a longer filter, none overwriting another's unmoved samples. |
| SpeexResampler.Resampler.ShrinkChannels | speex_resampler_cpp/src/speex_resampler.c:763-779 | All channels follow a shorter filter. |
| SpeexResampler.Resampler.FillDirect | speex_resampler_cpp/src/speex_resampler.c:665-675 | Every entry of the direct table is set, every phase. |
| SpeexResampler.Resampler.FillInterpolated | speex_resampler_cpp/src/speex_resampler.c:685-688 | Every entry of the interpolated table is set, four past each end. |
| SpeexResampler.Resampler.BuildTable | speex_resampler_cpp/src/speex_resampler.c:637-698 | The cheaper table that fits, and the kernel to go with it; it fails exactly when the size is out of range or memory is refused. |
| SpeexResampler.Resampler.EnlargeMemory | speex_resampler_cpp/src/speex_resampler.c:706-717 | Room for the longer filter with the old samples kept; it fails exactly when out of range or refused. |
| SpeexResampler.Resampler.PrepareFilter | speex_resampler_cpp/src/speex_resampler.c:602-717 | A new filter with table and room, or the zero kernel over unchanged length and memory. |
| SpeexResampler.Resampler.UpdateFilter | speex_resampler_cpp/src/speex_resampler.c:602-789 | On success the designed filter, a sufficient allocation and every channel of a started resampler realigned (an unstarted one is cleared); on failure everything but the kernel as before. The length, oversampling and cutoff are what `WellDesigned` says. Succeeds exactly when table and memory can be had. Lockstep is kept. |
| SpeexResampler.Resampler.SetQuality | speex_resampler_cpp/src/speex_resampler.c:1130-1140 | Range check, no-op for the same quality, otherwise the effect and outcome of update_filter; the invariant is kept on every path. |
| SpeexResampler.Resampler.RescalePhases | speex_resampler_cpp/src/speex_resampler.c:1108-1117 | Every phase is exactly the rounded-down rescaled one. |
| SpeexResampler.Resampler.SetRateFrac | speex_resampler_cpp/src/speex_resampler.c:1085-1122 | Coprime rates in the requested ratio, phases rescaled, channels realigned from there; early return and failure path as in the source; the invariant is kept on every path. |
| SpeexResampler.RateChangeCarriesOver | speex_resampler_cpp/src/speex_resampler.c:1108-1122 | What set_rate_frac leaves in each channel of the memory is that change of rates. |
| SpeexResampler.Resampler.AppliesDesign | speex_resampler_cpp/src/speex_resampler.c:602-698 | A ready resampler applies the filter designed for its quality, its rates and its sinc, with length, oversampling and cutoff as `WellDesigned` says. |
| SpeexResampler.InitFrac | speex_resampler_cpp/src/speex_resampler.c:796-855 | Null exactly for a bad quality or refused memory; otherwise a ready resampler whose channels have seen only silence, in lockstep. |
| SpeexResampler.Resampler.SkipZeros | speex_resampler_cpp/src/speex_resampler.c:1177-1183 | All channels are placed at half the filter; invariant and lockstep kept. |
| SpeexResampler.RealignInStep | speex_resampler_cpp/src/speex_resampler.c:718-779 | A change of filter length keeps channels in lockstep. |
| Frames.CallAllFollows | speex_resampler_cpp/src/speex_resampler.c:1028-1049 | An interleaved call on channels that follow their streams yields the next outputs of every stream and leaves all at the same later place. |
| Frames.Advance | speex_resampler_cpp/src/speex_resampler.c:1028-1049 | Method form: the frames are appended right behind those already written, nothing else in the buffer changes. |
| StreamResampler.QueuedHead | speex_resampler_cpp/src/resampler_class.cpp:66-70 | What is left of the first queued block is what every channel's stream goes on with. |
| StreamResampler.NothingLeft | speex_resampler_cpp/src/resampler_class.cpp:65-80 | With the queue empty every output of the input so far has been made. |
| StreamResampler.ResamplerImplementation.constructor | speex_resampler_cpp/src/resampler_class.cpp:33-39 | A new resampler is at the start of the stream of no blocks. |
| StreamResampler.ResamplerImplementation.Read | speex_resampler_cpp/src/resampler_class.cpp:49-60 | The block is queued last, in a used buffer if there is one, and the stream goes on with it. |
| StreamResampler.ResamplerImplementation.Turn | speex_resampler_cpp/src/resampler_class.cpp:65-80 | One turn of the loop keeps the stream and uses up input or makes output. |
| StreamResampler.ResamplerImplementation.Write | speex_resampler_cpp/src/resampler_class.cpp:62-84 | Exactly min(max, outputs due for all blocks read) frames, each the next ideal output of its channel times 0.94, nothing else in dest touched; fewer than max only with the queue empty; buffers are conserved. |
| StreamResampler.CreateResampler | speex_resampler_cpp/src/resampler_class.cpp:33-43 | Succeeds exactly when the filter can be had; the resampler then applies the quality 1 design for the given sinc and the requested ratio in lowest terms. |
| StaticResampler.StaticResample | speex_resampler_cpp/src/resampler_function.cpp:8-47 | For unequal rates exactly ceil(frames * out / in) frames, inside the buffer set aside, equal to the ideal outputs of the whole input by the quality 10 design for the given sinc and this ratio; for equal rates a copy; null exactly on refused memory. |
| StaticResampler.AnyDesign | speex_resampler_cpp/src/resampler_function.cpp:35-45 | Those samples do not depend on which filter of that design it was. |
| StaticResampler.Fill | speex_resampler_cpp/src/resampler_function.cpp:35-45 | The 1024-frame loop reads all input and writes every output due. |
| StaticResampler.AvailOfRates | speex_resampler_cpp/src/resampler_function.cpp:28-28 | The count is the rounded-up one at the rates given, whatever multiple of the reduced ratio they are. |
| StaticResampler.RoomForAll | speex_resampler_cpp/src/resampler_function.cpp:34-35 | The outputs never reach the room set aside, so remaining_out never stops the loop. |
| StaticResampler.SizeEnough | speex_resampler_cpp/src/resampler_function.cpp:28-34 | The allocation in samples covers the room in frames. |
| StaticResampler.Unchunked | speex_resampler_cpp/src/resampler_function.cpp:35-44 | One call with room for everything gives the same samples as the chunked loop's stream. |
| ConverterStream.BlocksForLeast | src/audio_io/format_conversion/sample_format_converter.cpp:63-74 | A number of blocks is enough for output frame t exactly when it is at least `BlocksFor`. |
| ConverterStream.RawStable | src/audio_io/format_conversion/sample_format_converter.cpp:63-74 | A frame is the same however many more blocks have been played: the converter's output is one stream. |
| ConverterStream.WorkedMore | src/audio_io/format_conversion/sample_format_converter.cpp:66-67 | The resampler's frames continue the workspace without gap. |
| SampleFormatConverter.RemixInterleaved | src/audio_io/format_conversion/sample_format_converter.cpp:77-77 | Every output frame is the remix of its input frame. |
| SampleFormatConverter.LazyIsLeast | src/audio_io/format_conversion/sample_format_converter.cpp:66-74 | The loop's invariant pins the number of callback runs to the least that suffices. |
| SampleFormatConverter.OneBlockCloser | src/audio_io/format_conversion/sample_format_converter.cpp:66-74 | Each callback run strictly reduces the input still missing, so the loop terminates. |
| SampleFormatConverter.PlayQueue | src/audio_io/format_conversion/sample_format_converter.cpp:67-67 | The resampler gives what is due and no more; short only with its queue empty. |
| SampleFormatConverter.SampleFormatConverter.Resample | src/audio_io/format_conversion/sample_format_converter.cpp:63-74 | The refill loop ends with a full workspace of the next frames, the callback run no more often than that takes, and at most one block queued. |
| SampleFormatConverter.SampleFormatConverter.RefillSame | src/audio_io/format_conversion/sample_format_converter.cpp:50-58 | Without resampling: the next block, straight or remixed. |
| SampleFormatConverter.SampleFormatConverter.RefillOutputBuffer | src/audio_io/format_conversion/sample_format_converter.cpp:49-80 | The output buffer holds the next output_frames frames of the stream. |
| SampleFormatConverter.SampleFormatConverter.CallbackRunsLeast | src/audio_io/format_conversion/sample_format_converter.cpp:49-80 | Between writes the callback has run exactly as often as the frames handed out require. |
| SampleFormatConverter.SampleFormatConverter.HandOut | src/audio_io/format_conversion/sample_format_converter.cpp:38-45 | One piece of what the output buffer holds, in order. |
| SampleFormatConverter.SampleFormatConverter.Write | src/audio_io/format_conversion/sample_format_converter.cpp:35-47 | Any sequence of writes of any sizes hands out the converted stream, in order, exactly once. |
| SampleFormatConverter.Create | src/audio_io/format_conversion/sample_format_converter.cpp:12-27 | Buffer sizes as in the source, nothing handed out, the quality 1 design for the given sinc and ratio when the rates differ, and failure exactly when that cannot be had. |
| Semaphore.StepKeepsInv | include/audio_io/private/semaphore.hpp:212-260 | Slow-path waiters = max(0, -m_count) + kernel permits + posts to come, and finished waits + abstract count = initial + signalled: kept by every atomic step of any thread. |
| Semaphore.StepRefines | include/audio_io/private/semaphore.hpp:212-260 | Every step is invisible, or takes one unit of a positive abstract count, or gives units: the implementation refines a counting semaphore. |
| Semaphore.NoLostWakeup | include/audio_io/private/semaphore.hpp:212-260 | Over every run and any number of threads, waits never exceed units, and a thread asleep with no kernel permit and no post due means every unit is used. |
| Semaphore.UnitsTaken | include/audio_io/private/semaphore.hpp:212-249 | A wait returns only with a unit, whatever its path, and so does a tryWait that is true; one that is false has read a count that was not positive or lost its exchange; nothing else takes a unit. |
| Semaphore.WaitStaysWaiting | include/audio_io/private/semaphore.hpp:212-249 | A wait goes on until it returns. |
| Semaphore.EveryReturnTookAUnit | include/audio_io/private/semaphore.hpp:212-260 | Over every run: returned waits and true tryWaits are exactly the units taken, so never more than initial + signalled. |
| Semaphore.WaitIsShort | include/audio_io/private/semaphore.hpp:212-229 | A wait is done or asleep after 20003 steps of its own, its 10001 tries among them. |
| Semaphore.OperationEnds | include/audio_io/private/semaphore.hpp:212-260 | Outside the kernel wait an operation can always step and ends after a bounded number of its own steps. |
| Pipeline.StartInv | src/audio_io/output_worker_thread.cpp:11-30 | The state the constructor leaves. |
| Pipeline.SpinsSucceed | src/audio_io/output_worker_thread.cpp:60-95 | The pop and the two pushes that spin succeed at once: permits never exceed queued returns and there is room for every buffer in hand. |
| Pipeline.Apart | src/audio_io/output_worker_thread.cpp:60-95 | No command is in two places; outside the returned queue there are only buffers. |
| Pipeline.Sizes | src/audio_io/output_worker_thread.cpp:60-95 | The queues, the worker's hand, the current buffer, a release in progress and the freed buffers together always hold exactly mixahead buffers and the stop in flight. |
| Pipeline.WorkerKeeps | src/audio_io/output_worker_thread.cpp:60-84 | Every worker step keeps buffer conservation, permit count, stop order and the stream. |
| Pipeline.IoKeeps | src/audio_io/output_worker_thread.cpp:86-125 | Every step of write, release and destructor does. |
| Pipeline.CopyDelivers | src/audio_io/output_worker_thread.cpp:97-113 | A copy delivers the next frames of the stream, also from a partly read buffer. |
| Pipeline.DeliveredIsPrefix | src/audio_io/output_worker_thread.cpp:60-125 | Under every interleaving everything delivered is a prefix of the mixed stream, and delivered plus still held is everything mixed. |
| Pipeline.WriteCounts | src/audio_io/output_worker_thread.cpp:115-125 | Step by step, the total grows with what is delivered, and total and what is still wanted add up. |
| Pipeline.WriteReturnsDelivered | src/audio_io/output_worker_thread.cpp:115-125 | A whole write, the worker moving in between as it likes: the total it returns is exactly the growth of what is delivered, at most the count, and less only if it found nothing. |
| Pipeline.WriteEnds | src/audio_io/output_worker_thread.cpp:97-125 | A write is never blocked, and each of its own steps brings its end closer whatever the worker does. |
| Pipeline.ShortOnlyOnUnderrun | src/audio_io/output_worker_thread.cpp:97-125 | With blocks of at least one frame, a write ends short only if it has looked for a buffer, nothing is prepared and no buffer is partly read. |
| Pipeline.EmptyBlocksDeliverNothing | src/audio_io/output_worker_thread.cpp:18-18 | When the block is shorter than one output frame nothing is ever delivered, however much is prepared. |
| Pipeline.EmptyBlockEndsShort | src/audio_io/output_worker_thread.cpp:97-125 | With blocks of no frames, the run in which a write of one frame right after the initial mix comes back with none although every buffer is prepared. |
| Pipeline.OnlyUnderrunsAreShortIff | src/audio_io/output_worker_thread.cpp:97-125 | The exact condition, over all runs: every short write is an underrun if and only if a block has at least one frame. |
| OutputStream.ShortIsUnderrunIff | src/audio_io/output_worker_thread.cpp:15-19 | In the constructor's arguments: if and only if sourceFrames * destinationSr >= sourceSr. |
| OutputStream.DestinationFramesIs | src/audio_io/output_worker_thread.cpp:17-17 | destination_frames is the number n with n * sourceSr <= sourceFrames * destinationSr < (n + 1) * sourceSr, and no other. |
| OutputStream.EmptyBlocks | src/audio_io/output_worker_thread.cpp:17-17 | destination_frames is zero exactly when sourceFrames * destinationSr < sourceSr. |
| OutputStream.EmptyBlocksExample | src/audio_io/output_worker_thread.cpp:17-17 | Blocks of 4 frames from 48000 to 8000 Hz. |
| Pipeline.InitialMixFinishes | src/audio_io/output_worker_thread.cpp:54-82 | Whatever the I/O thread does meanwhile: until the initial mix is finished or the worker has taken the stop, the worker is not blocked, each of its steps brings the end closer and no other step moves it away, so awaitInitialMix returns. |
| Pipeline.InitialMixEnds | src/audio_io/output_worker_thread.cpp:76-82 | The worker alone, after five steps for each buffer, has mixed all of mixahead and said so. |
| Pipeline.StopAccepted | src/audio_io/output_worker_thread.cpp:32-36 | Even with the returned queue full, the worker can always move and three of its steps let the stop in. |
| Pipeline.JoinEnds | src/audio_io/output_worker_thread.cpp:37-38 | Once the stop is signalled the worker is never blocked and each of its steps brings its end closer. |
| Pipeline.DestructorGoesThrough | src/audio_io/output_worker_thread.cpp:32-52 | The destructor begins with its push, waits only for room in the queue and for the worker to be done, and each of its other steps brings its end closer. |
| Pipeline.AfterJoin | src/audio_io/output_worker_thread.cpp:39-51 | After the join the returned queue is empty, the stop is in no queue and never freed, each buffer is in exactly one of prepared, current, freed, and nothing is freed twice. |
| Pipeline.AllFreed | src/audio_io/output_worker_thread.cpp:39-51 | At the end a buffer has been freed exactly if it is not the partly read one. |
| OutputStream.ConverterFillsBlock | src/audio_io/output_worker_thread.cpp:71-72 | What the converter's write leaves in a buffer is the block of the stream the pipeline assumes. |
| OutputStream.MixBlock | src/audio_io/output_worker_thread.cpp:71-72 | The worker's turn with a buffer, on the converter object: standing at block k, it leaves block k in the buffer and stands at block k + 1. |
| OutputStream.Replay | src/audio_io/output_worker_thread.cpp:60-84 | A converter used whenever the worker mixes, along any run, leaves in the buffers exactly what the run says they hold. |
| OutputStream.WrittenIsConverted | src/audio_io/output_worker_thread.cpp:60-125 | Under every interleaving, frame t of everything written is frame t of the converter's stream, and no more than the blocks mixed are worth at the destination's rate. |
| OutputStream.Play | src/audio_io/output_worker_thread.cpp:11-125 | End to end, from the constructor's arguments and any schedule of the two threads: the converter made from them fills the buffers of the run with blocks of the one n frames with n * sourceSr <= sourceFrames * destinationSr < (n + 1) * sourceSr, and everything written is the beginning of the callback's blocks, resampled by the quality 1 design for this ratio and remixed. |
| ThreadsafeQueue.ThreadsafeQueue.Enqueue | powercores/include/powercores/threadsafe_queue.hpp:20-25 | The item comes last in order. |
| ThreadsafeQueue.ThreadsafeQueue.ActualDequeue | powercores/include/powercores/threadsafe_queue.hpp:84-89 | The oldest item is taken. |
| ThreadsafeQueue.ThreadsafeQueue.Dequeue | powercores/include/powercores/threadsafe_queue.hpp:29-37 | The same once the wait is over. |
| ThreadsafeQueue.ThreadsafeQueue.DequeueRange | powercores/include/powercores/threadsafe_queue.hpp:60-70 | The oldest min(count, size) items, in order, and no others. |
| ThreadPool.RoundRobin | powercores/include/powercores/thread_pool.hpp:35-39 | Submission k from a start goes to the one queue k places after it, so thread_count submissions hit each queue once. |
| ThreadPool.BarrierJobKeeps | powercores/src/powercores/thread_pool.cpp:54-75 | Each job of a barrier reaches a queue that has not had one; all queues see the barriers in the same order. |
| ThreadPool.EnqueueKeeps | powercores/include/powercores/thread_pool.hpp:35-48 | Submitting a job keeps every log in submission order. |
| ThreadPool.SubmitLands | powercores/include/powercores/thread_pool.hpp:35-39 | submitJob: the log of the worker at the pointer grows by exactly this job, nothing else changes, and the pointer goes on. |
| ThreadPool.SubmitterLands | powercores/include/powercores/thread_pool.hpp:35-48 | Every submission puts exactly its job at the end of exactly its queue; the other steps touch no queue. |
| ThreadPool.JobsAccountedFor | powercores/include/powercores/thread_pool.hpp:35-48 | Over every run and for every job: the copies in all logs are exactly those submitted, one for each submitJob accepted and one for each step of submitJobToAllThreads. |
| ThreadPool.PointerIsTurns | powercores/include/powercores/thread_pool.hpp:35-39 | Turn k of the round robin goes to queue k % thread_count. |
| ThreadPool.SubmittedJobIsDone | powercores/include/powercores/thread_pool.hpp:35-39 | A submitted job stands from then on where it was put, at the end of what queue k % thread_count had, and is among the jobs done once that worker has nothing left, which WorkDrains says it reaches. |
| ThreadPool.RequestsBegin | powercores/include/powercores/thread_pool.hpp:35-48 | What each request does at once. |
| ThreadPool.BarrierReachesAll | powercores/src/powercores/thread_pool.cpp:54-75 | When submitBarrier is over every queue has got its job exactly once, at its end, whatever the workers did meanwhile. |
| ThreadPool.BarrierBetween | powercores/src/powercores/thread_pool.cpp:54-75 | The barrier promise in the caller's terms: one job submitted, then a barrier, then another job; whenever the second has started, the first is done. |
| ThreadPool.BroadcastReachesAll | powercores/include/powercores/thread_pool.hpp:42-48 | When submitJobToAllThreads is over every queue has got the job exactly once, at its end, whatever the workers did meanwhile. |
| ThreadPool.FetchTakes | powercores/src/powercores/thread_pool.cpp:77-84 | A worker takes the oldest jobs, five or all if there are fewer, and leaves the rest in order. |
| ThreadPool.ArriveKeeps | powercores/src/powercores/thread_pool.cpp:61-72 | The counter always counts the arrivals, and only the last to arrive goes on. |
| ThreadPool.WorkerKeeps | powercores/src/powercores/thread_pool.cpp:61-90 | Every worker step keeps the invariant. |
| ThreadPool.SubmitterKeeps | powercores/include/powercores/thread_pool.hpp:35-48 | Every submitter step does, stop included. |
| ThreadPool.BarrierSeparates | powercores/src/powercores/thread_pool.cpp:54-75 | The barrier promise: once a job submitted after a barrier has started on any worker, every job submitted before it has finished on every worker, for any number of barriers and workers and every interleaving. |
| ThreadPool.NoTouchAfterDelete | powercores/src/powercores/thread_pool.cpp:61-68 | The counter and the promise are never used after they are deleted. |
| ThreadPool.NoDeadlock | powercores/src/powercores/thread_pool.cpp:54-90 | Whenever some worker has something left and no barrier is half submitted, some worker can move. |
| ThreadPool.WorkDrains | powercores/src/powercores/thread_pool.cpp:77-90 | With no submission going on, the workers take no more steps than there is left to do, and when none can move none has anything left. |
| ThreadPool.StopJoins | powercores/src/powercores/thread_pool.cpp:35-45 | Once every queue has its poison, the workers stop moving only when all of them are dead: the joins return. |
| ThreadPool.WorkEnds | powercores/src/powercores/thread_pool.cpp:77-90 | Each step of a worker brings it closer to the end of its work. |
| ThreadPool.WorkersKeepLogs | powercores/src/powercores/thread_pool.cpp:77-90 | Working neither loses, repeats nor reorders jobs. |
| ThreadPool.StopFinishesAll | powercores/src/powercores/thread_pool.cpp:35-45 | A worker that has taken the poison has finished everything submitted to it. |

## Left out

- FilterDesign.RescaleIsFloor: exact integers; `RescaleWithin32Bits` says when the 32-bit product agrees, and SetRateFrac uses the exact one.
- 32-bit arithmetic otherwise: counters and products are unbounded integers, so wrap-around (filt_len * num_rate, samp_frac_num * oversample, frames * channels) is not modelled; the INT_MAX guards of the allocations are.
- Floating-point rounding, saturation and the choice of accumulator precision: samples are reals, so the single and double kernels differ only in their loop.
- The windowed sinc, its Kaiser tables and compute_func: an arbitrary function of cutoff, argument, length and quality.
- Channel.KernelsAdvanceAlike: the five loops are one in the model, as the next line says.
- SpeexResampler.Resampler.KernelLoop: the loop that the five basic kernels repeat is written once, with the kernel applied through the pointer.
- The per-channel counter arrays are sequences the methods reassign; the memory, the table and the output buffers are arrays updated in place.
- SpeexResampler.InitFrac: the channel count and both rates are positive; the source divides by them unchecked.
- speex_resampler_reset_mem: it clears a flat prefix rather than each channel's strided memory, so with several channels a reset resampler is not a fresh one.
- speex_resampler_process_int and the 16-bit interleaved call, and the fixed-point, SSE and NEON builds: another chunking layer over the same calls.
- The latency getters, estimateAvailableFrames and the other getters.
- StreamResampler.ResamplerImplementation.Read: blocks are values in the queue, so reuse of a buffer is modelled as a count, not as aliasing.
- StaticResampler.StaticResample: the unchecked calloc of the resampling branch is taken to succeed.
- The remix matrices and their dispatch: one arbitrary function from an input frame to an output frame.
- The callback of the converter is a function from the number of the call to the block it writes.
- OutputStream.Replay: a buffer's samples are written through one scratch array and kept as values, so the identity of the data arrays is not modelled.
- Pipeline.StartInv: the constructor's pushes and its signal happen before the worker starts and are modelled by the state they leave.
- Pipeline.AllFreed: a partly read current buffer is not freed by the source either; what the model states is that nothing is freed twice.
- The frames in a buffer are copied whole in the pipeline; the sample-wise copy is proved in the converter.
- Weak memory ordering: atomics are sequentially consistent steps. The lock-free queues are bounded first-in first-out queues of capacity mixahead.
- ThreadsafeQueue.ThreadsafeQueue.Dequeue: modelled from the moment the wait for an item is over; the condition variable and its wakeups are not.
- ThreadsafeQueue.ThreadsafeQueue.DequeueRange: the same.
- enqueueRange, size, empty and dequeueWithTimeout of the queue: enqueueRange neither counts nor notifies. submitJobRangeUnordered and map, which need it or only submit jobs.
- ThreadPool.BarrierSeparates: one submitter at a time, as job_queue_pointer is not protected; start and setThreadCount after stop begin a new run.
- Job results, exceptions other than the poison, and what jobs do.
- Devices (ALSA, WASAPI), logging, latency prediction, thread-local variables.
