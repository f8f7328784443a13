/**
 One channel of the resampler as a value: the samples it holds (filter history, then
 magic samples) and the position of its next output. `Process` says what one call of
 speex_resampler_process_float does to it.
 */
module Channel {
  import opened Arithmetic
  import opened Polyphase

  datatype Channel = Channel(memory: seq<real>, last: int, frac: int)

  // Result of one call: the channel after it, the samples written, the input samples taken.
  datatype Processed = Processed(chan: Channel, out: seq<real>, taken: nat)

  function Zeros(n: nat): seq<real> {
    seq(n, _ => 0.0)
  }

  function Fresh(f: Filter): Channel {
    Channel(Zeros(f.taps - 1), 0, 0)
  }

  predicate Fits(f: Filter, c: Channel) {
    |c.memory| >= f.taps - 1 && 0 <= c.last && 0 <= c.frac < f.den
  }

  function Pos(f: Filter, c: Channel): int {
    c.last * f.den + c.frac
  }

  function PlaceAt(f: Filter, memory: seq<real>, t: int): Channel {
    Channel(memory, t / f.den, t % f.den)
  }

  function Magic(f: Filter, c: Channel): int {
    |c.memory| - (f.taps - 1)
  }

  // Samples one run of a kernel over n input samples leaves behind.
  function Passed(f: Filter, t: int, n: nat, room: nat): (used: nat)
    requires 0 <= t
    ensures used <= n
  {
    StartsBefore(t, 0, f.den);
    MulMono(0, Made(f, t, n, room), f.num);
    DivMono(t, t + Made(f, t, n, room) * f.num, f.den);
    Min((t + Made(f, t, n, room) * f.num) / f.den, n)
  }

  lemma PassedFacts(f: Filter, t: int, n: nat, room: nat)
    requires 0 <= t
    ensures Passed(f, t, n, room) * f.den <= t + Made(f, t, n, room) * f.num
    ensures Made(f, t, n, room) < room ==> Passed(f, t, n, room) == n
    ensures Passed(f, t, n, room) == n ==> Made(f, t, n, room) == Avail(f, t, n)
    ensures n > 0 && room > 0 ==> Passed(f, t, n, room) > 0 || Made(f, t, n, room) > 0
  {
    var made := Made(f, t, n, room);
    var end := t + made * f.num;
    var used := Passed(f, t, n, room);
    StartsBefore(end, used, f.den);
    StartsBefore(end, n, f.den);
    AvailExact(f, t, n, made);
    AvailExact(f, t, n, 0);
    StartsBefore(t, n, f.den);
  }

  // Input samples the chunk loop takes, reading at most xlen samples at a time.
  function Used(f: Filter, t: int, ilen: nat, olen: nat, xlen: pos): (used: nat)
    requires 0 <= t
    ensures used <= ilen
    decreases ilen + olen
  {
    if ilen == 0 || olen == 0 then 0
    else
      var n := Min(ilen, xlen);
      var made := Made(f, t, n, olen);
      var used := Passed(f, t, n, olen);
      PassedFacts(f, t, n, olen);
      used + Used(f, t + made * f.num - used * f.den, ilen - used, olen - made, xlen)
  }

  // Samples of a leftover of magic samples that the magic step passes.
  function MagicPassed(f: Filter, t: int, magic: nat, room: nat): nat
    requires 0 <= t
  {
    if magic == 0 then 0 else Passed(f, t, magic, room)
  }

  function Taken(f: Filter, t: int, magic: nat, ilen: nat, olen: nat, xlen: pos): nat
    requires 0 <= t
  {
    if MagicPassed(f, t, magic, olen) < magic then 0
    else
      var made := if magic == 0 then 0 else Made(f, t, magic, olen);
      PassedFacts(f, t, magic, olen);
      Used(f, t + made * f.num - magic * f.den, ilen, olen - made, xlen)
  }

  // speex_resampler_process_float on one channel. The outputs are those of the ideal
  // filter over everything held and offered; xlen only decides how much stays unread.
  function Process(f: Filter, c: Channel, data: seq<real>, olen: nat, xlen: pos): Processed
    requires Fits(f, c)
  {
    var t := Pos(f, c);
    var magic := Magic(f, c);
    MulMono(0, c.last, f.den);
    var made := Made(f, t, magic + |data|, olen);
    var drop := MagicPassed(f, t, magic, olen);
    var taken := Taken(f, t, magic, |data|, olen, xlen);
    TakenBound(f, t, magic, |data|, olen, xlen);
    Processed(
      PlaceAt(f, (c.memory + data)[drop + taken..|c.memory| + taken], t + made * f.num - (drop + taken) * f.den),
      Outputs(f, c.memory + data, t, made),
      taken)
  }

  lemma TakenBound(f: Filter, t: int, magic: nat, ilen: nat, olen: nat, xlen: pos)
    requires 0 <= t
    ensures MagicPassed(f, t, magic, olen) <= magic
    ensures Taken(f, t, magic, ilen, olen, xlen) <= ilen
  {
    if magic > 0 { PassedFacts(f, t, magic, olen); }
  }

  // One chunk and then the rest make what one unchunked run would.
  lemma MadeSplit(f: Filter, t: int, n: nat, ilen: nat, olen: nat, used: nat)
    requires n <= ilen && used <= n
    ensures var made := Made(f, t, n, olen);
            Made(f, t, ilen, olen) == made + Made(f, t + made * f.num - used * f.den, ilen - used, olen - made)
  {
    AvailMono(f, t, n, ilen);
    AvailAdvance(f, t, ilen, Made(f, t, n, olen), used);
  }

  lemma AdvancePos(f: Filter, t0: int, gone: int, made: int, drop: int, more: int)
    ensures t0 + made * f.num - gone * f.den + more * f.num - drop * f.den
            == t0 + (made + more) * f.num - (gone + drop) * f.den
  {
    Distribute(made, more, f.num);
    Distribute(gone, drop, f.den);
  }

  // The chunk loop reads everything unless it runs out of room, and never passes its position.
  lemma {:induction false} UsedFacts(f: Filter, t: int, ilen: nat, olen: nat, xlen: pos)
    requires 0 <= t
    ensures var made := Made(f, t, ilen, olen);
            var used := Used(f, t, ilen, olen, xlen);
            && used * f.den <= t + made * f.num
            && (made < olen ==> used == ilen)
            && (used == ilen && olen > 0 ==> made == Avail(f, t, ilen))
    decreases ilen + olen
  {
    hide Avail, Passed;
    AvailExact(f, t, 0, 0);
    if ilen == 0 || olen == 0 {
    } else {
      var n := Min(ilen, xlen);
      var made := Made(f, t, n, olen);
      var used := Passed(f, t, n, olen);
      PassedFacts(f, t, n, olen);
      MadeSplit(f, t, n, ilen, olen, used);
      var t' := t + made * f.num - used * f.den;
      UsedFacts(f, t', ilen - used, olen - made, xlen);
      AdvancePos(f, t, 0, made, 0, Made(f, t', ilen - used, olen - made));
      AdvancePos(f, 0, used, 0, Used(f, t', ilen - used, olen - made, xlen), 0);
      AvailMono(f, t, n, ilen);
      AvailAdvance(f, t, ilen, made, used);
    }
  }

  // After a drained leftover of magic samples the call goes on as if nothing had been held back.
  lemma MagicDrained(f: Filter, t: int, magic: nat, ilen: nat, olen: nat)
    requires 0 <= t && MagicPassed(f, t, magic, olen) == magic
    ensures var made := if magic == 0 then 0 else Made(f, t, magic, olen);
            var t' := t + made * f.num - magic * f.den;
            && 0 <= t' && made <= olen
            && Made(f, t, magic + ilen, olen) == made + Made(f, t', ilen, olen - made)
  {
    if magic > 0 {
      PassedFacts(f, t, magic, olen);
      MadeSplit(f, t, magic, magic + ilen, olen, magic);
    }
  }

  // A call never passes its own position, and stops short of the offered input only when it
  // runs out of room.
  lemma CallEnd(f: Filter, t: int, magic: nat, ilen: nat, olen: nat, xlen: pos)
    requires 0 <= t
    ensures var made := Made(f, t, magic + ilen, olen);
            var drop := MagicPassed(f, t, magic, olen);
            var taken := Taken(f, t, magic, ilen, olen, xlen);
            && t + made * f.num - (drop + taken) * f.den >= 0
            && (made < olen ==> taken == ilen && drop == magic)
            && (drop < magic ==> taken == 0)
  {
    hide Used;
    var made := Made(f, t, magic + ilen, olen);
    var drop := MagicPassed(f, t, magic, olen);
    var taken := Taken(f, t, magic, ilen, olen, xlen);
    TakenBound(f, t, magic, ilen, olen, xlen);
    if drop < magic {
      PassedFacts(f, t, magic, olen);
      AvailMono(f, t, magic, magic + ilen);
    } else {
      var made1 := if magic == 0 then 0 else Made(f, t, magic, olen);
      MagicDrained(f, t, magic, ilen, olen);
      UsedFacts(f, t + made1 * f.num - magic * f.den, ilen, olen - made1, xlen);
      Distribute(made1, made - made1, f.num);
      Distribute(magic, taken, f.den);
    }
  }

  // Where a call ends: it never passes its own position, keeps every sample the filter still
  // needs, and stops short of the offered input only when it runs out of room.
  lemma ProcessFacts(f: Filter, c: Channel, data: seq<real>, olen: nat, xlen: pos)
    requires Fits(f, c)
    ensures var p := Process(f, c, data, olen, xlen);
            && Fits(f, p.chan)
            && |p.chan.memory| <= |c.memory|
            && p.taken <= |data|
            && p.chan.memory == (c.memory + data)[|c.memory| - |p.chan.memory| + p.taken..|c.memory| + p.taken]
            && (Magic(f, p.chan) > 0 ==> p.taken == 0)
            && |p.out| == Made(f, Pos(f, c), Magic(f, c) + |data|, olen)
            && (|p.out| < olen ==> p.taken == |data| && Magic(f, p.chan) == 0)
            && Pos(f, p.chan) == Pos(f, c) + |p.out| * f.num
                                 - (|c.memory| - |p.chan.memory| + p.taken) * f.den
  {
    hide Made, Avail, Taken, MagicPassed, Outputs;
    var t := Pos(f, c);
    var magic := Magic(f, c);
    var ilen := |data|;
    MulMono(0, c.last, f.den);
    var made := Made(f, t, magic + ilen, olen);
    var drop := MagicPassed(f, t, magic, olen);
    var taken := Taken(f, t, magic, ilen, olen, xlen);
    TakenBound(f, t, magic, ilen, olen, xlen);
    var end := t + made * f.num - (drop + taken) * f.den;
    CallEnd(f, t, magic, ilen, olen, xlen);
    StartsBefore(end, 0, f.den);
    DivMod(end, f.den);
  }

  lemma HeldOut(f: Filter, c: Channel, data: seq<real>, olen: nat, xlen: pos)
    requires Fits(f, c)
    ensures Process(f, c, data, olen, xlen).out
            == Outputs(f, c.memory + data, Pos(f, c), Made(f, Pos(f, c), Magic(f, c) + |data|, olen))
  {
    hide Made, Outputs;
  }

  lemma MemoryRest(a: seq<real>, b: seq<real>, k: nat)
    requires k <= |a|
    ensures (a + b)[k..|a|] == a[k..]
  {
  }

  /**
   Magic samples are just earlier input: holding some back gives the outputs and the end
   position of one call offered all of them; and when room runs out first, no new input is
   taken and what is still held back is kept in order.
   */
  lemma MagicIsEarlierInput(f: Filter, c: Channel, data: seq<real>, olen: nat, xlen: pos)
    requires Fits(f, c)
    ensures var h := f.taps - 1;
            var p := Process(f, c, data, olen, xlen);
            var q := Process(f, c.(memory := c.memory[..h]), c.memory[h..] + data, olen, xlen);
            && p.out == q.out
            && Pos(f, p.chan) + (|c.memory| - |p.chan.memory| + p.taken) * f.den == Pos(f, q.chan) + q.taken * f.den
            && (Magic(f, p.chan) > 0 ==>
                  p.taken == 0 && |p.out| == olen && p.chan.memory == c.memory[|c.memory| - |p.chan.memory|..])
  {
    var h := f.taps - 1;
    var d := c.(memory := c.memory[..h]);
    assert d.memory + (c.memory[h..] + data) == c.memory + data;
    MulMono(0, c.last, f.den);
    HeldOut(f, c, data, olen, xlen);
    HeldOut(f, d, c.memory[h..] + data, olen, xlen);
    ProcessFacts(f, c, data, olen, xlen);
    ProcessFacts(f, d, c.memory[h..] + data, olen, xlen);
    hide Process, Made, Outputs;
    if Magic(f, Process(f, c, data, olen, xlen).chan) > 0 {
      MemoryRest(c.memory, data, |c.memory| - |Process(f, c, data, olen, xlen).chan.memory|);
    }
  }

  lemma {:induction false} UsedAlike(f: Filter, g: Filter, t: int, ilen: nat, olen: nat, xlen: pos)
    requires 0 <= t && g.num == f.num && g.den == f.den
    ensures Used(g, t, ilen, olen, xlen) == Used(f, t, ilen, olen, xlen)
    decreases ilen + olen
  {
    if ilen == 0 || olen == 0 {
    } else {
      var n := Min(ilen, xlen);
      PassedFacts(f, t, n, olen);
      var made, used := Made(f, t, n, olen), Passed(f, t, n, olen);
      assert Made(g, t, n, olen) == made && Passed(g, t, n, olen) == used;
      UsedAlike(f, g, t + made * f.num - used * f.den, ilen - used, olen - made, xlen);
    }
  }

  /**
   All kernels advance alike: whichever one is chosen, the silent one included, a call takes the
   same input, makes as many outputs and leaves the channel in the same state.
   */
  lemma KernelsAdvanceAlike(f: Filter, g: Filter, c: Channel, data: seq<real>, olen: nat, xlen: pos)
    requires Fits(f, c) && g == f.(kernel := g.kernel)
    ensures var p, q := Process(f, c, data, olen, xlen), Process(g, c, data, olen, xlen);
            p.chan == q.chan && p.taken == q.taken && |p.out| == |q.out|
  {
    var t, magic := Pos(f, c), Magic(f, c);
    MulMono(0, c.last, f.den);
    assert Made(g, t, magic, olen) == Made(f, t, magic, olen)
        && MagicPassed(g, t, magic, olen) == MagicPassed(f, t, magic, olen);
    if MagicPassed(f, t, magic, olen) >= magic {
      var made := if magic == 0 then 0 else Made(f, t, magic, olen);
      PassedFacts(f, t, magic, olen);
      UsedAlike(f, g, t + made * f.num - magic * f.den, |data|, olen - made, xlen);
    }
    hide Used, Passed, Y;
  }

  // The channel is `made` outputs into the stream x that it started on at position t0, and the
  // next sample it will be offered is x[next]: it holds exactly the samples of x before that.
  ghost predicate Follows(f: Filter, c: Channel, x: seq<real>, t0: int, next: nat, made: nat) {
    && Fits(f, c)
    && |c.memory| <= next <= |x|
    && c.memory == x[next - |c.memory|..next]
    && Pos(f, c) == t0 + made * f.num - (next - |c.memory|) * f.den
    && made <= Avail(f, t0, |x| - (f.taps - 1))
  }

  lemma FollowsMore(f: Filter, c: Channel, x: seq<real>, more: seq<real>, t0: int, next: nat, made: nat)
    requires Follows(f, c, x, t0, next, made)
    ensures Follows(f, c, x + more, t0, next, made)
  {
    assert (x + more)[next - |c.memory|..next] == x[next - |c.memory|..next];
    AvailMono(f, t0, |x| - (f.taps - 1), |x + more| - (f.taps - 1));
  }

  lemma ProcessOutFollows(f: Filter, c: Channel, x: seq<real>, t0: int, next: nat, made: nat, len: nat, olen: nat,
                          xlen: pos)
    requires Follows(f, c, x, t0, next, made) && next + len <= |x|
    ensures var out := Process(f, c, x[next..next + len], olen, xlen).out;
            out == Outputs(f, x, t0 + made * f.num, |out|)
  {
    var gone := next - |c.memory|;
    assert c.memory + x[next..next + len] == x[gone..next + len];
    MulMono(0, c.last, f.den);
    OutputsSlice(f, x, gone, next + len, Pos(f, c), Made(f, Pos(f, c), Magic(f, c) + len, olen));
  }

  lemma AdvanceBound(f: Filter, t0: int, t: int, total: int, gone: int, n: int, made: nat, more: nat)
    requires t == t0 + made * f.num - gone * f.den
    requires made <= Avail(f, t0, total) && n <= total - gone && more <= Avail(f, t, n)
    ensures made + more <= Avail(f, t0, total)
  {
    AvailAdvance(f, t0, total, made, gone);
    AvailMono(f, t, n, total - gone);
  }

  // A slice of a slice is a slice.
  lemma SubSlice(x: seq<real>, lo: nat, hi: nat, a: nat, b: nat)
    requires lo <= hi <= |x| && a <= b <= hi - lo
    ensures x[lo..hi][a..b] == x[lo + a..lo + b]
  {
    assert forall k :: 0 <= k < b - a ==> x[lo..hi][a..b][k] == x[lo + a..lo + b][k];
  }

  // Dropping from a stretch of x leaves a later stretch of x.
  lemma Stretch(x: seq<real>, a: seq<real>, b: seq<real>, next: nat, drop: nat, taken: nat)
    requires |a| <= next && next + |b| <= |x| && taken <= |b| && drop <= |a| + taken
    requires a == x[next - |a|..next] && b == x[next..next + |b|]
    ensures (a + b)[drop..|a| + taken] == x[next - |a| + drop..next + taken]
  {
    assert a + b == x[next - |a|..next + |b|];
    SubSlice(x, next - |a|, next + |b|, drop, |a| + taken);
  }

  // Any step that keeps a later stretch of memory ++ data and moves the position to match.
  lemma FollowsStep(f: Filter, c: Channel, c': Channel, data: seq<real>, x: seq<real>, t0: int, next: nat, made: nat,
                    taken: nat, more: nat)
    requires Follows(f, c, x, t0, next, made) && next + |data| <= |x| && data == x[next..next + |data|]
    requires Fits(f, c') && |c'.memory| <= |c.memory| && taken <= |data|
    requires c'.memory == (c.memory + data)[|c.memory| - |c'.memory| + taken..|c.memory| + taken]
    requires Pos(f, c') == Pos(f, c) + more * f.num - (|c.memory| - |c'.memory| + taken) * f.den
    requires more <= Avail(f, Pos(f, c), Magic(f, c) + |data|)
    ensures Follows(f, c', x, t0, next + taken, made + more)
  {
    hide Avail;
    var drop := |c.memory| - |c'.memory| + taken;
    Stretch(x, c.memory, data, next, drop, taken);
    AdvancePos(f, t0, next - |c.memory|, made, drop, more);
    AdvanceBound(f, t0, Pos(f, c), |x| - (f.taps - 1), next - |c.memory|, Magic(f, c) + |data|, made, more);
  }

  lemma ProcessChanFollows(f: Filter, c: Channel, x: seq<real>, t0: int, next: nat, made: nat, len: nat, olen: nat,
                           xlen: pos)
    requires Follows(f, c, x, t0, next, made) && next + len <= |x|
    ensures var p := Process(f, c, x[next..next + len], olen, xlen);
            Follows(f, p.chan, x, t0, next + p.taken, made + |p.out|)
  {
    hide Process, Avail;
    var data := x[next..next + len];
    ProcessFacts(f, c, data, olen, xlen);
    var p := Process(f, c, data, olen, xlen);
    FollowsStep(f, c, p.chan, data, x, t0, next, made, p.taken, |p.out|);
  }

  // The streaming step: offered the next `len` samples of its stream, a channel puts out the
  // next outputs of that stream and stays on it.
  lemma ProcessFollows(f: Filter, c: Channel, x: seq<real>, t0: int, next: nat, made: nat, len: nat, olen: nat,
                       xlen: pos)
    requires Follows(f, c, x, t0, next, made) && next + len <= |x|
    ensures var p := Process(f, c, x[next..next + len], olen, xlen);
            && p.taken <= len
            && Fits(f, p.chan)
            && p.out == Outputs(f, x, t0 + made * f.num, |p.out|)
            && Follows(f, p.chan, x, t0, next + p.taken, made + |p.out|)
  {
    hide Process, Outputs;
    ProcessFacts(f, c, x[next..next + len], olen, xlen);
    ProcessOutFollows(f, c, x, t0, next, made, len, olen, xlen);
    ProcessChanFollows(f, c, x, t0, next, made, len, olen, xlen);
  }

  // A caller's run over the stream x: each call offers up to `len` samples from the next
  // unread one on, and room for `room` outputs.
  datatype Call = Call(len: nat, room: nat)

  // The position of the n-th output after position t.
  function Ahead(f: Filter, t: int, n: nat): int {
    t + n * f.num
  }

  function Offer(x: seq<real>, next: nat, len: nat): seq<real>
    requires next <= |x|
  {
    x[next..Min(next + len, |x|)]
  }

  // The channel after the calls, all their outputs, and how far into x they have read.
  function Run(f: Filter, c: Channel, x: seq<real>, next: nat, calls: seq<Call>, xlen: pos): (r: Processed)
    requires Fits(f, c) && next <= |x|
    decreases |calls|
  {
    if calls == [] then Processed(c, [], next)
    else
      var p := Process(f, c, Offer(x, next, calls[0].len), calls[0].room, xlen);
      ProcessFacts(f, c, Offer(x, next, calls[0].len), calls[0].room, xlen);
      var rest := Run(f, p.chan, x, next + p.taken, calls[1..], xlen);
      Processed(rest.chan, p.out + rest.out, rest.taken)
  }

  // ProcessFollows for a call of a run.
  lemma CallFollows(f: Filter, c: Channel, x: seq<real>, t0: int, next: nat, made: nat, call: Call, xlen: pos)
    requires Follows(f, c, x, t0, next, made)
    ensures var p := Process(f, c, Offer(x, next, call.len), call.room, xlen);
            && next + p.taken <= |x|
            && Fits(f, p.chan)
            && p.out == Outputs(f, x, Ahead(f, t0, made), |p.out|)
            && Follows(f, p.chan, x, t0, next + p.taken, made + |p.out|)
  {
    hide Process, Outputs;
    ProcessFollows(f, c, x, t0, next, made, Min(next + call.len, |x|) - next, call.room, xlen);
  }

  lemma {:induction false} RunFollows(f: Filter, c: Channel, x: seq<real>, t0: int, next: nat, made: nat,
                                      calls: seq<Call>, xlen: pos)
    requires Fits(f, c) && next <= |x| && Follows(f, c, x, t0, next, made)
    ensures var r := Run(f, c, x, next, calls, xlen);
            && r.out == Outputs(f, x, Ahead(f, t0, made), |r.out|)
            && Follows(f, r.chan, x, t0, r.taken, made + |r.out|)
    decreases |calls|
  {
    hide Process, Follows, Ahead, Outputs;
    if calls == [] {
      OutputsNone(f, x, Ahead(f, t0, made));
    } else {
      CallFollows(f, c, x, t0, next, made, calls[0], xlen);
      var p := Process(f, c, Offer(x, next, calls[0].len), calls[0].room, xlen);
      RunFollows(f, p.chan, x, t0, next + p.taken, made + |p.out|, calls[1..], xlen);
      RunJoin(f, x, t0, made, p.out, Run(f, p.chan, x, next + p.taken, calls[1..], xlen).out);
    }
  }

  lemma OutputsNone(f: Filter, x: seq<real>, t: int)
    ensures Outputs(f, x, t, 0) == []
  {
  }

  lemma RunJoin(f: Filter, x: seq<real>, t0: int, made: nat, a: seq<real>, b: seq<real>)
    requires a == Outputs(f, x, Ahead(f, t0, made), |a|)
    requires b == Outputs(f, x, Ahead(f, t0, made + |a|), |b|)
    ensures a + b == Outputs(f, x, Ahead(f, t0, made), |a + b|)
  {
    Distribute(made, |a|, f.num);
    OutputsConcat(f, x, t0 + made * f.num, |a|, |b|);
  }

  // Magic samples never appear out of a run of calls.
  lemma {:induction false} RunKeepsMagic(f: Filter, c: Channel, x: seq<real>, next: nat, calls: seq<Call>, xlen: pos)
    requires Fits(f, c) && next <= |x|
    ensures var r := Run(f, c, x, next, calls, xlen);
            && Fits(f, r.chan)
            && Magic(f, r.chan) <= Magic(f, c)
    decreases |calls|
  {
    hide Process;
    if calls == [] {
    } else {
      var data := Offer(x, next, calls[0].len);
      ProcessFacts(f, c, data, calls[0].room, xlen);
      var p := Process(f, c, data, calls[0].room, xlen);
      RunKeepsMagic(f, p.chan, x, next + p.taken, calls[1..], xlen);
    }
  }

  // What following a stream from its start at position 0 means for a channel without magic samples.
  lemma FollowsFromStart(f: Filter, c: Channel, x: seq<real>, next: nat, made: nat)
    requires Follows(f, c, x, 0, next, made) && Magic(f, c) == 0
    ensures c.memory == x[next - (f.taps - 1)..next]
    ensures Pos(f, c) + (next - (f.taps - 1)) * f.den == made * f.num
    ensures Pos(f, c) >= (|x| - next) * f.den ==> made == Avail(f, 0, |x| - (f.taps - 1))
  {
    AvailExact(f, 0, |x| - (f.taps - 1), made);
    Distribute(|x| - next, next - (f.taps - 1), f.den);
  }

  lemma FreshFollows(f: Filter, input: seq<real>)
    ensures Follows(f, Fresh(f), Zeros(f.taps - 1) + input, 0, f.taps - 1, 0)
  {
    assert (Zeros(f.taps - 1) + input)[0..f.taps - 1] == Zeros(f.taps - 1);
  }

  /**
   Streaming refinement: however a caller cuts up its calls and whatever the internal chunk
   size, a fresh channel puts out a prefix of the ideal outputs of zeros followed by the input;
   it stays exactly on that stream; and once its position has passed all the input, the prefix
   is all of them.
   */
  lemma StreamingRefinement(f: Filter, input: seq<real>, calls: seq<Call>, xlen: pos)
    ensures var h := f.taps - 1;
            var x := Zeros(h) + input;
            var r := Run(f, Fresh(f), x, h, calls, xlen);
            && h <= r.taken <= |x|
            && r.out == Outputs(f, x, 0, |r.out|)
            && |r.out| <= Avail(f, 0, |input|)
            && r.chan.memory == x[r.taken - h..r.taken]
            && Pos(f, r.chan) + (r.taken - h) * f.den == |r.out| * f.num
            && (Pos(f, r.chan) >= (|x| - r.taken) * f.den ==> |r.out| == Avail(f, 0, |input|))
  {
    hide Run, Process, Outputs, Avail, Zeros;
    var h := f.taps - 1;
    var x := Zeros(h) + input;
    FreshFollows(f, input);
    RunFollows(f, Fresh(f), x, 0, h, 0, calls, xlen);
    RunKeepsMagic(f, Fresh(f), x, h, calls, xlen);
    var r := Run(f, Fresh(f), x, h, calls, xlen);
    assert Ahead(f, 0, 0) == 0;
    FollowsFromStart(f, r.chan, x, r.taken, |r.out|);
  }
}
