/**
 The chunk loop of speex_resampler_process_float on values: a state halfway through the loop,
 what one turn does to it, and why the loop ends where `Process` says.
 */
module Chunks {
  import opened Arithmetic
  import opened Polyphase
  import opened Channel

  // The position a run of the kernel leaves, counted from the first sample not passed.
  function NativeEnd(f: Filter, t: int, inLen: nat, outLen: nat): int
    requires 0 <= t
  {
    t + Made(f, t, inLen, outLen) * f.num - Passed(f, t, inLen, outLen) * f.den
  }

  // Having started with history h1 at position t1, the loop has taken `taken` samples of data
  // and made `made` of the outputs there was room for, and is at position t with history h.
  ghost predicate Halfway(f: Filter, h1: seq<real>, data: seq<real>, t1: int, room: nat, xlen: pos,
                          taken: nat, made: nat, h: seq<real>, t: int)
  {
    && 0 <= t1 && 0 <= t && taken <= |data| && made <= room
    && |h1| == f.taps - 1
    && h == (h1 + data)[taken..taken + f.taps - 1]
    && t == t1 + made * f.num - taken * f.den
    && made <= Avail(f, t1, |data|)
    && Made(f, t1, |data|, room) == made + Made(f, t, |data| - taken, room - made)
    && Used(f, t1, |data|, room, xlen) == taken + Used(f, t, |data| - taken, room - made, xlen)
  }

  lemma HalfwayStart(f: Filter, h1: seq<real>, data: seq<real>, t1: int, room: nat, xlen: pos)
    requires 0 <= t1 && |h1| == f.taps - 1
    ensures Halfway(f, h1, data, t1, room, xlen, 0, 0, h1, t1)
  {
    assert h1 == (h1 + data)[0..f.taps - 1];
  }

  // A chunk sees the same stretch of samples as the whole run would.
  lemma ChunkWindow(h1: seq<real>, data: seq<real>, taken: nat, n: nat, h: seq<real>)
    requires taken + n <= |data| && h == (h1 + data)[taken..taken + |h1|]
    ensures h + data[taken..taken + n] == (h1 + data)[taken..taken + |h1| + n]
  {
  }

  // The outputs of a chunk are the next outputs of the whole run.
  lemma ChunkOutputs(f: Filter, h1: seq<real>, data: seq<real>, t1: int, room: nat, xlen: pos,
                     taken: nat, made: nat, h: seq<real>, t: int, n: nat)
    requires Halfway(f, h1, data, t1, room, xlen, taken, made, h, t) && taken + n <= |data|
    ensures var more := Made(f, t, n, room - made);
            Outputs(f, h1 + data, t1, made) + Outputs(f, h + data[taken..taken + n], t, more)
            == Outputs(f, h1 + data, t1, made + more)
  {
    hide Used, Y;
    var more := Made(f, t, n, room - made);
    var x := h1 + data;
    ChunkWindow(h1, data, taken, n, h);
    OutputsSlice(f, x, taken, taken + f.taps - 1 + n, t, more);
    OutputsConcat(f, x, t1, made, more);
  }

  lemma ChunkMemory(h1: seq<real>, data: seq<real>, taken: nat, n: nat, h: seq<real>, used: nat)
    requires taken + n <= |data| && h == (h1 + data)[taken..taken + |h1|] && used <= n
    ensures (h + data[taken..taken + n])[used..used + |h1|] == (h1 + data)[taken + used..taken + used + |h1|]
  {
    ChunkWindow(h1, data, taken, n, h);
    SubSlice(h1 + data, taken, taken + |h1| + n, used, used + |h1|);
  }

  // One turn of the loop keeps it halfway, and makes or takes something.
  lemma ChunkStep(f: Filter, h1: seq<real>, data: seq<real>, t1: int, room: nat, xlen: pos,
                  taken: nat, made: nat, h: seq<real>, t: int, n: nat)
    requires Halfway(f, h1, data, t1, room, xlen, taken, made, h, t)
    requires taken < |data| && made < room && n == Min(|data| - taken, xlen)
    ensures var used := Passed(f, t, n, room - made);
            var more := Made(f, t, n, room - made);
            && 0 <= more && used + more > 0
            && Halfway(f, h1, data, t1, room, xlen, taken + used, made + more,
                       (h + data[taken..taken + n])[used..used + f.taps - 1], NativeEnd(f, t, n, room - made))
  {
    var used := Passed(f, t, n, room - made);
    var more := Made(f, t, n, room - made);
    PassedFacts(f, t, n, room - made);
    ChunkMemory(h1, data, taken, n, h, used);
    MadeSplit(f, t, n, |data| - taken, room - made, used);
    AdvancePos(f, t1, taken, made, used, more);
    AdvanceBound(f, t1, t, |data|, taken, n, made, more);
    hide Passed, Avail;
  }

  // When input or room has run out, the loop has done what `Process` says.
  lemma ChunksDone(f: Filter, c: Channel, data: seq<real>, room: nat, xlen: pos, taken: nat, made: nat, h: seq<real>,
                   t: int)
    requires Fits(f, c) && Magic(f, c) == 0
    requires Halfway(f, c.memory, data, Pos(f, c), room, xlen, taken, made, h, t)
    requires taken == |data| || made == room
    ensures Process(f, c, data, room, xlen)
            == Processed(PlaceAt(f, h, t), Outputs(f, c.memory + data, Pos(f, c), made), taken)
  {
    hide Outputs;
    AvailExact(f, t, 0, 0);
    assert Used(f, t, |data| - taken, room - made, xlen) == 0;
    assert Made(f, t, |data| - taken, room - made) == 0;
  }

  /**
   Draining the magic samples and then going on with the input is one call: the same outputs,
   the same samples taken, the same channel in the end.
   */
  lemma MagicThenInput(f: Filter, c: Channel, data: seq<real>, olen: nat, xlen: pos)
    requires Fits(f, c) && 0 <= Pos(f, c)
    requires Passed(f, Pos(f, c), Magic(f, c), olen) == Magic(f, c)
    ensures var made := Made(f, Pos(f, c), Magic(f, c), olen);
            var c' := PlaceAt(f, c.memory[Magic(f, c)..], NativeEnd(f, Pos(f, c), Magic(f, c), olen));
            && 0 <= made <= olen && Fits(f, c')
            && var p := Process(f, c', data, olen - made, xlen);
               Process(f, c, data, olen, xlen)
               == Processed(p.chan, Outputs(f, c.memory, Pos(f, c), made) + p.out, p.taken)
  {
    var t := Pos(f, c);
    var magic := Magic(f, c);
    var made := Made(f, t, magic, olen);
    var t' := NativeEnd(f, t, magic, olen);
    PassedFacts(f, t, magic, olen);
    StartsBefore(t', 0, f.den);
    DivMod(t', f.den);
    var c' := PlaceAt(f, c.memory[magic..], t');
    MadeBound(f, t, magic, olen);
    MagicSplit(f, c, c', data, olen, made, xlen);
  }

  // No magic samples, so the position is not before the start and none are passed.
  lemma NothingHeld(f: Filter, t: int, olen: nat)
    requires 0 <= t
    ensures Made(f, t, 0, olen) == 0 && Passed(f, t, 0, olen) == 0
  {
    AvailExact(f, t, 0, 0);
  }

  lemma MagicSplitOut(f: Filter, memory: seq<real>, data: seq<real>, t: int, t': int, magic: nat, made: nat, more: nat)
    requires 0 <= t && 0 <= t' == t + made * f.num - magic * f.den && |memory| == f.taps - 1 + magic
    requires made <= Avail(f, t, magic) && more <= Avail(f, t', |data|)
    ensures Outputs(f, memory, t, made) + Outputs(f, memory[magic..] + data, t', more)
            == Outputs(f, memory + data, t, made + more)
  {
    hide Y, Avail;
    var x := memory + data;
    assert x[0..|memory|] == memory;
    assert x[magic..|x|] == memory[magic..] + data;
    OutputsSlice(f, x, 0, |memory|, t, made);
    OutputsSlice(f, x, magic, |x|, t', more);
    OutputsConcat(f, x, t, made, more);
  }

  lemma MagicSplitMemory(memory: seq<real>, data: seq<real>, magic: nat, taken: nat)
    requires magic <= |memory| && taken <= |data|
    ensures (memory[magic..] + data)[taken..|memory| - magic + taken]
            == (memory + data)[magic + taken..|memory| + taken]
  {
    var x := memory + data;
    assert memory[magic..] + data == x[magic..|x|];
    SubSlice(x, magic, |x|, taken, |memory| - magic + taken);
  }

  // Where `made` outputs from position t end, counted from `gone` samples later.
  function Landed(f: Filter, t: int, made: int, gone: int): int {
    t + made * f.num - gone * f.den
  }

  // What `Process` says when no magic samples are left over.
  lemma ProcessDrained(f: Filter, c: Channel, data: seq<real>, olen: nat, xlen: pos, made: nat, more: nat, t': int)
    requires Fits(f, c) && 0 <= Pos(f, c)
    requires MagicPassed(f, Pos(f, c), Magic(f, c), olen) == Magic(f, c)
    requires made == Made(f, Pos(f, c), Magic(f, c), olen) && made <= olen
    requires 0 <= t' == Landed(f, Pos(f, c), made, Magic(f, c))
    requires more == Made(f, t', |data|, olen - made)
    ensures var taken := Used(f, t', |data|, olen - made, xlen);
            Process(f, c, data, olen, xlen)
            == Processed(PlaceAt(f, (c.memory + data)[Magic(f, c) + taken..|c.memory| + taken],
                                 Landed(f, t', more, taken)),
                         Outputs(f, c.memory + data, Pos(f, c), made + more), taken)
  {
    var t := Pos(f, c);
    var magic := Magic(f, c);
    NothingHeld(f, t, olen);
    MagicDrained(f, t, magic, |data|, olen);
    hide Made, Used, Passed, Outputs;
    AdvancePos(f, t, magic, made, Used(f, t', |data|, olen - made, xlen), more);
  }

  // The same for a channel that has none.
  lemma ProcessUnheld(f: Filter, c: Channel, data: seq<real>, olen: nat, xlen: pos, more: nat)
    requires Fits(f, c) && 0 <= Pos(f, c) && Magic(f, c) == 0
    requires more == Made(f, Pos(f, c), |data|, olen)
    ensures var taken := Used(f, Pos(f, c), |data|, olen, xlen);
            Process(f, c, data, olen, xlen)
            == Processed(PlaceAt(f, (c.memory + data)[taken..|c.memory| + taken], Landed(f, Pos(f, c), more, taken)),
                         Outputs(f, c.memory + data, Pos(f, c), more), taken)
  {
    NothingHeld(f, Pos(f, c), olen);
    assert Landed(f, Pos(f, c), 0, 0) == Pos(f, c);
    hide Process, Made, Passed, Used, Avail, Outputs, PlaceAt, Landed, Pos;
    ProcessDrained(f, c, data, olen, xlen, 0, more, Pos(f, c));
  }

  lemma MagicSplit(f: Filter, c: Channel, c': Channel, data: seq<real>, olen: nat, made: nat, xlen: pos)
    requires Fits(f, c) && Fits(f, c') && 0 <= Pos(f, c) && 0 <= Pos(f, c')
    requires made == Made(f, Pos(f, c), Magic(f, c), olen) && Passed(f, Pos(f, c), Magic(f, c), olen) == Magic(f, c)
    requires made <= olen && made <= Avail(f, Pos(f, c), Magic(f, c))
    requires c'.memory == c.memory[Magic(f, c)..]
    requires Pos(f, c') == Landed(f, Pos(f, c), made, Magic(f, c))
    ensures var p := Process(f, c', data, olen - made, xlen);
            Process(f, c, data, olen, xlen)
            == Processed(p.chan, Outputs(f, c.memory, Pos(f, c), made) + p.out, p.taken)
  {
    var t' := Pos(f, c');
    var more := Made(f, t', |data|, olen - made);
    var taken := Used(f, t', |data|, olen - made, xlen);
    LandedIs(f, Pos(f, c), made, Magic(f, c));
    MadeBound(f, t', |data|, olen - made);
    MagicSplitOut(f, c.memory, data, Pos(f, c), t', Magic(f, c), made, more);
    MagicSplitMemory(c.memory, data, Magic(f, c), taken);
    hide Process, Made, Passed, Used, Avail, Outputs, PlaceAt, Landed, Pos;
    ProcessDrained(f, c, data, olen, xlen, made, more, t');
    ProcessUnheld(f, c', data, olen - made, xlen, more);
  }

  lemma LandedIs(f: Filter, t: int, made: int, gone: int)
    ensures Landed(f, t, made, gone) == t + made * f.num - gone * f.den
  {
  }

  lemma MadeBound(f: Filter, t: int, n: int, room: nat)
    ensures 0 <= Made(f, t, n, room) <= room && Made(f, t, n, room) <= Avail(f, t, n)
  {
  }

  // When room runs out while magic samples are still held back, the input is not touched.
  lemma MagicKept(f: Filter, c: Channel, data: seq<real>, olen: nat, xlen: pos)
    requires Fits(f, c) && 0 <= Pos(f, c) && Passed(f, Pos(f, c), Magic(f, c), olen) < Magic(f, c)
    ensures var made := Made(f, Pos(f, c), Magic(f, c), olen);
            && 0 <= made <= olen
            && Process(f, c, data, olen, xlen)
               == Processed(PlaceAt(f, c.memory[Passed(f, Pos(f, c), Magic(f, c), olen)..],
                                    NativeEnd(f, Pos(f, c), Magic(f, c), olen)),
                            Outputs(f, c.memory, Pos(f, c), made), 0)
  {
    var t := Pos(f, c);
    var magic := Magic(f, c);
    var made := Made(f, t, magic, olen);
    var drop := Passed(f, t, magic, olen);
    PassedFacts(f, t, magic, olen);
    AvailMono(f, t, magic, magic + |data|);
    hide Passed, Avail, Used;
    var x := c.memory + data;
    assert x[0..|c.memory|] == c.memory;
    assert x[drop..|c.memory|] == c.memory[drop..];
    OutputsSlice(f, x, 0, |c.memory|, t, made);
  }

  // What the magic step alone does to a channel.
  function Drained(f: Filter, c: Channel, olen: nat): Processed
    requires Fits(f, c)
  {
    MulMono(0, c.last, f.den);
    Processed(
      PlaceAt(f, c.memory[Passed(f, Pos(f, c), Magic(f, c), olen)..], NativeEnd(f, Pos(f, c), Magic(f, c), olen)),
      Outputs(f, c.memory, Pos(f, c), Made(f, Pos(f, c), Magic(f, c), olen)),
      0)
  }

  // The two ways a call can go after the magic step.
  lemma CallCases(f: Filter, c: Channel, data: seq<real>, olen: nat, xlen: pos)
    requires Fits(f, c)
    ensures var q := Drained(f, c, olen);
            && |q.out| <= olen && q.taken == 0
            && (Magic(f, q.chan) > 0 ==> Process(f, c, data, olen, xlen) == q)
            && (Magic(f, q.chan) <= 0 ==>
                  Fits(f, q.chan) && var p := Process(f, q.chan, data, olen - |q.out|, xlen);
                                     Process(f, c, data, olen, xlen) == Processed(p.chan, q.out + p.out, p.taken))
  {
    MulMono(0, c.last, f.den);
    MadeBound(f, Pos(f, c), Magic(f, c), olen);
    hide Process, Outputs, NativeEnd, Made;
    if Passed(f, Pos(f, c), Magic(f, c), olen) < Magic(f, c) {
      MagicKept(f, c, data, olen, xlen);
    } else {
      MagicThenInput(f, c, data, olen, xlen);
    }
  }
}
