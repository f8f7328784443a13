/**
 OutputWorkerThread: the worker that mixes ahead and the I/O thread that writes and at last
 destroys, as a transition system over their two bounded queues, the semaphore (as an abstract
 count of permits, which `Semaphore` justifies) and the partly read current buffer.
 */
module Pipeline {
  import opened Arithmetic

  datatype Option<T> = None | Some(value: T)

  // A command on a queue: one of the mixahead buffers, or the destructor's stop.
  datatype Command = Buffer(id: nat) | Stop

  type Frame = seq<real>

  // mixahead, destination_frames and the frames the converter puts out, one after the other.
  datatype Config = Config(mixahead: pos, frames: nat, stream: nat -> Frame)

  datatype Worker =
    | Waiting                      // in semaphore.wait()
    | Popping                      // has a permit, about to pop returned_buffers
    | Mixing(cmd: Command)         // about to fill the buffer from the converter
    | Pushing(cmd: Command)        // about to push it onto prepared_buffers
    | Counting                     // about to count towards the initial mix
    | Done                         // has returned

  datatype Io =
    | Idle                                                     // in no call
    | Helping(count: nat, total: nat)                          // at the start of writeHelper
    | Copying(count: nat, total: nat)                          // current_buffer is there
    | Releasing(cmd: Command, count: nat, total: nat, wrote: nat)  // about to push onto returned_buffers
    | Signalling(count: nat, total: nat, wrote: nat)           // about to signal
    | StopPushing                                              // the destructor, about to push the stop
    | StopSignalling
    | Joining
    | FreeingReturned
    | FreeingPrepared
    | Gone

  datatype State = State(returned: seq<Command>, prepared: seq<Command>, current: Option<Command>,
                         data: seq<seq<Frame>>, used: seq<nat>, permits: nat,
                         worker: Worker, io: Io, mixed: nat, finishedInitialMix: bool,
                         blocks: nat, delivered: seq<Frame>, freed: seq<Command>)

  // The constructor has pushed every buffer and signalled as often.
  function Start(c: Config): State {
    State(Buffers(c.mixahead), [], None, seq(c.mixahead, _ => []), seq(c.mixahead, _ => 0), c.mixahead,
          Waiting, Idle, 0, false, 0, [], [])
  }

  function Buffers(n: nat): seq<Command> {
    seq(n, i requires 0 <= i < n => Buffer(i))
  }

  // Block k of the stream.
  function Block(c: Config, k: nat): (b: seq<Frame>)
    ensures |b| == c.frames
  {
    MulMono(0, k, c.frames);
    seq(c.frames, j requires 0 <= j < c.frames => c.stream(k * c.frames + j))
  }

  // The first n frames of the stream.
  function Prefix(c: Config, n: nat): (p: seq<Frame>)
    ensures |p| == n
  {
    seq(n, i requires 0 <= i < n => c.stream(i))
  }

  // semaphore.wait()
  function Claim(s: State): State {
    if s.permits > 0 then s.(permits := s.permits - 1, worker := Popping) else s
  }

  // The pop of returned_buffers; while it fails the worker spins.
  function Pop(s: State): State {
    if s.returned == [] then s
    else if s.returned[0] == Stop then s.(returned := s.returned[1..], worker := Done)
    else s.(returned := s.returned[1..], worker := Mixing(s.returned[0]))
  }

  // converter.write: the next frames of the stream.
  function Mix(c: Config, s: State, cmd: Command): State {
    if cmd.Buffer? && cmd.id < |s.data| && cmd.id < |s.used|
    then s.(data := s.data[cmd.id := Block(c, s.blocks)], used := s.used[cmd.id := 0], blocks := s.blocks + 1,
            worker := Pushing(cmd))
    else s
  }

  // The push onto prepared_buffers; while it fails the worker spins.
  function Push(c: Config, s: State, cmd: Command): State {
    if |s.prepared| < c.mixahead then s.(prepared := s.prepared + [cmd], worker := Counting) else s
  }

  function Count(c: Config, s: State): State {
    if s.finishedInitialMix then s.(worker := Waiting)
    else s.(mixed := s.mixed + 1, finishedInitialMix := s.mixed + 1 == c.mixahead, worker := Waiting)
  }

  function WorkerNext(c: Config, s: State): State {
    match s.worker
    case Waiting => Claim(s)
    case Popping => Pop(s)
    case Mixing(cmd) => Mix(c, s, cmd)
    case Pushing(cmd) => Push(c, s, cmd)
    case Counting => Count(c, s)
    case Done => s
  }

  // Blocked in the semaphore, or finished.
  predicate WorkerBlocked(s: State) {
    s.worker.Done? || (s.worker.Waiting? && s.permits == 0)
  }

  // What the I/O thread may call next: a write of `count` frames, or the destructor.
  datatype Call = Write(count: nat) | Destroy

  // The end of writeHelper: another round unless it wrote nothing.
  function Again(count: nat, total: nat, wrote: nat): Io {
    if wrote > 0 then Helping(count, total) else Idle
  }

  function WillWrite(c: Config, s: State, id: nat, count: nat): nat
    requires id < |s.used|
  {
    if c.frames - s.used[id] < count then (if c.frames < s.used[id] then 0 else c.frames - s.used[id]) else count
  }

  function Begin(s: State, call: Call): State {
    if call.Write? then s.(io := Helping(call.count, 0)) else s.(io := StopPushing)
  }

  // writeHelper up to the copy: takes a prepared buffer if there is no current one.
  function Help(s: State, count: nat, total: nat): State {
    if s.current.Some? then s.(io := Copying(count, total))
    else if s.prepared == [] then s.(io := Idle)
    else s.(current := Some(s.prepared[0]), prepared := s.prepared[1..], io := Copying(count, total))
  }

  // releaseBuffer's push; while it fails the I/O thread spins.
  function Release(c: Config, s: State, cmd: Command, count: nat, total: nat, wrote: nat): State {
    if |s.returned| < c.mixahead then s.(returned := s.returned + [cmd], io := Signalling(count, total, wrote)) else s
  }

  function Signal(s: State, count: nat, total: nat, wrote: nat): State {
    s.(permits := s.permits + 1, io := Again(count, total, wrote))
  }

  // The destructor's push; while it fails it yields.
  function PushStop(c: Config, s: State): State {
    if |s.returned| < c.mixahead then s.(returned := s.returned + [Stop], io := StopSignalling) else s
  }

  function SignalStop(s: State): State {
    s.(permits := s.permits + 1, io := Joining)
  }

  function Join(s: State): State {
    if s.worker.Done? then s.(io := FreeingReturned) else s
  }

  function FreeReturned(s: State): State {
    if s.returned == [] then s.(io := FreeingPrepared)
    else s.(returned := s.returned[1..], freed := s.freed + [s.returned[0]])
  }

  function FreePrepared(s: State): State {
    if s.prepared == [] then s.(io := Gone)
    else s.(prepared := s.prepared[1..], freed := s.freed + [s.prepared[0]])
  }

  function IoNext(c: Config, s: State, call: Call): State {
    match s.io
    case Idle => Begin(s, call)
    case Helping(count, total) => Help(s, count, total)
    case Copying(count, total) => Copy(c, s, count, total)
    case Releasing(cmd, count, total, wrote) => Release(c, s, cmd, count, total, wrote)
    case Signalling(count, total, wrote) => Signal(s, count, total, wrote)
    case StopPushing => PushStop(c, s)
    case StopSignalling => SignalStop(s)
    case Joining => Join(s)
    case FreeingReturned => FreeReturned(s)
    case FreeingPrepared => FreePrepared(s)
    case Gone => s
  }

  // The copy in writeHelper, which gives the buffer back when it is used up.
  function Copy(c: Config, s: State, count: nat, total: nat): State {
    if s.current.Some? && s.current.value.Buffer? && s.current.value.id < |s.used| && s.current.value.id < |s.data| then
      var cmd := s.current.value;
      var w := WillWrite(c, s, cmd.id, count);
      var used := s.used[cmd.id];
      var piece := if used + w <= |s.data[cmd.id]| then s.data[cmd.id][used..used + w] else [];
      var rest := if w <= count then count - w else 0;
      if used + w == c.frames
      then s.(used := s.used[cmd.id := used + w], delivered := s.delivered + piece, current := None,
              io := Releasing(cmd, rest, total + w, w))
      else s.(used := s.used[cmd.id := used + w], delivered := s.delivered + piece, io := Again(rest, total + w, w))
    else s
  }

  // Whoever holds buffers besides the queues, one at a time.
  function Hand(s: State): seq<Command> {
    if s.worker.Mixing? || s.worker.Pushing? then [s.worker.cmd] else []
  }

  function Current(s: State): seq<Command> {
    if s.current.Some? then [s.current.value] else []
  }

  function Letting(s: State): seq<Command> {
    if s.io.Releasing? then [s.io.cmd] else []
  }

  function Num(q: seq<Command>, b: Command): nat {
    multiset(q)[b]
  }

  // How often a command is anywhere.
  function Times(s: State, b: Command): nat {
    Num(s.returned, b) + Num(Hand(s), b) + Num(s.prepared, b) + Num(Current(s), b) + Num(Letting(s), b)
        + Num(s.freed, b)
  }

  // The destructor has pushed the stop.
  predicate Stopping(s: State) {
    s.io.StopSignalling? || s.io.Joining? || s.io.FreeingReturned? || s.io.FreeingPrepared? || s.io.Gone?
  }

  predicate Freeing(s: State) {
    s.io.FreeingReturned? || s.io.FreeingPrepared? || s.io.Gone?
  }

  predicate StopAbout(s: State) {
    Stopping(s) && !s.worker.Done?
  }

  /** Conservation: every buffer is in exactly one place, and so is the stop from its push to its pop. */
  ghost predicate Conserved(c: Config, s: State) {
    forall b: Command :: Times(s, b)
        == if b.Buffer? then (if b.id < c.mixahead then 1 else 0) else if StopAbout(s) then 1 else 0
  }

  // The stop is the last thing ever returned, and the worker ends only by taking it.
  ghost predicate StopLast(s: State) {
    && (forall i :: 0 <= i < |s.returned| ==> (s.returned[i] == Stop <==> StopAbout(s) && i == |s.returned| - 1))
    && (StopAbout(s) ==> s.returned != [])
    && (s.worker.Done? ==> s.returned == [] && (s.io.Joining? || Freeing(s)))
    && (Freeing(s) ==> s.worker.Done?)
    && (s.freed != [] ==> Freeing(s))
  }

  function Pending(s: State): nat {
    if s.io.Signalling? || s.io.StopSignalling? then 1 else 0
  }

  function Claimed(s: State): nat {
    if s.worker.Popping? then 1 else 0
  }

  // Every returned command has its permit: free, claimed by the worker, or about to be signalled.
  ghost predicate PermitsMatch(s: State) {
    s.permits + Claimed(s) + Pending(s) == |s.returned|
  }

  // The blocks mixed and not yet completely delivered, oldest first.
  function Chain(s: State): seq<Command> {
    Current(s) + s.prepared + (if s.worker.Pushing? then [s.worker.cmd] else [])
  }

  function UsedOfCurrent(s: State): nat {
    if s.current.Some? && s.current.value.Buffer? && s.current.value.id < |s.used|
    then s.used[s.current.value.id]
    else 0
  }

  // Command b holds block k, unread but for the first `read` frames.
  ghost predicate HoldsBlock(c: Config, s: State, b: Command, k: int, read: nat) {
    && b.Buffer? && b.id < c.mixahead && |s.data| == |s.used| == c.mixahead && k >= 0
    && s.data[b.id] == Block(c, k) && s.used[b.id] == read
  }

  /**
   The stream: the blocks still in the pipeline are the last ones mixed, in order, and what has
   been delivered is exactly the stream before them and the part of the current one already read.
   */
  ghost predicate InOrder(c: Config, s: State) {
    && |s.data| == |s.used| == c.mixahead
    && |Chain(s)| <= s.blocks
    && (forall i :: 0 <= i < |Chain(s)| ==>
          HoldsBlock(c, s, Chain(s)[i], s.blocks - |Chain(s)| + i, if i == 0 then UsedOfCurrent(s) else 0))
    && (s.current.Some? ==> UsedOfCurrent(s) < c.frames || (c.frames == 0 && UsedOfCurrent(s) == 0))
    && (s.current.None? ==> UsedOfCurrent(s) == 0)
    && (s.io.Copying? ==> s.current.Some?)
    && (s.io.Releasing? ==> s.current.None?)
  }

  ghost predicate Exact(c: Config, s: State) {
    && |Chain(s)| <= s.blocks
    && |s.delivered| == FramesIn(c, s.blocks - |Chain(s)|) + UsedOfCurrent(s)
  }

  function FramesIn(c: Config, n: int): int {
    n * c.frames
  }

  ghost predicate Inv(c: Config, s: State) {
    && Conserved(c, s) && StopLast(s) && PermitsMatch(s)
    && (!Freeing(s) ==> InOrder(c, s) && Exact(c, s))
    && s.delivered == Prefix(c, |s.delivered|)
  }

  lemma {:induction false} BuffersOnce(n: nat, b: Command)
    ensures multiset(Buffers(n))[b] == if b.Buffer? && b.id < n then 1 else 0
    ensures |multiset(Buffers(n))| == n
  {
    if n > 0 {
      BuffersOnce(n - 1, b);
      assert Buffers(n) == Buffers(n - 1) + [Buffer(n - 1)];
    }
  }

  lemma NumHead(q: seq<Command>, b: Command)
    requires q != []
    ensures Num(q, b) == Num([q[0]], b) + Num(q[1..], b)
  {
    assert q == [q[0]] + q[1..];
  }

  lemma NumPush(q: seq<Command>, x: Command, b: Command)
    ensures Num(q + [x], b) == Num(q, b) + Num([x], b)
    ensures Num([], b) == 0 && Num([x], b) == if x == b then 1 else 0
  {
  }

  lemma NumIn(q: seq<Command>, b: Command)
    ensures Num(q, b) > 0 <==> b in q
  {
  }

  lemma TimesOnce(c: Config, s: State, b: Command)
    requires Conserved(c, s)
    ensures Times(s, b) == if b.Buffer? then (if b.id < c.mixahead then 1 else 0) else if StopAbout(s) then 1 else 0
  {
  }

  // Nothing is in two places, and nothing but buffers in any place but the returned queue.
  lemma Apart(c: Config, s: State, b: Command)
    requires Conserved(c, s) && StopLast(s)
    ensures Num(s.returned, b) + Num(Hand(s), b) + Num(s.prepared, b) + Num(Current(s), b) + Num(Letting(s), b)
            + Num(s.freed, b) <= 1
    ensures b in Hand(s) || b in s.prepared || b in Current(s) || b in Letting(s) || b in s.freed ==>
              b.Buffer? && b.id < c.mixahead
    ensures b in s.returned ==> b == Stop || b.id < c.mixahead
  {
    TimesOnce(c, s, b);
    NumIn(Hand(s), b);
    NumIn(s.prepared, b);
    NumIn(Current(s), b);
    NumIn(Letting(s), b);
    NumIn(s.freed, b);
    NumIn(s.returned, b);
    if StopAbout(s) {
      assert s.returned[|s.returned| - 1] == Stop;
    }
    hide Num, Hand, Current, Letting;
  }

  // There are never more commands than buffers, but for the stop.
  lemma Sizes(c: Config, s: State)
    requires Conserved(c, s)
    ensures |s.returned| + |Hand(s)| + |s.prepared| + |Current(s)| + |Letting(s)| + |s.freed|
            == c.mixahead + (if StopAbout(s) then 1 else 0)
  {
    var everywhere := multiset(s.returned) + multiset(Hand(s)) + multiset(s.prepared) + multiset(Current(s))
        + multiset(Letting(s)) + multiset(s.freed);
    var expected := multiset(Buffers(c.mixahead)) + (if StopAbout(s) then multiset{Stop} else multiset{});
    BuffersOnce(c.mixahead, Stop);
    assert everywhere == expected by {
      forall b: Command
        ensures everywhere[b] == expected[b]
      {
        BuffersOnce(c.mixahead, b);
        TimesOnce(c, s, b);
      }
    }
    assert |everywhere| == |s.returned| + |Hand(s)| + |s.prepared| + |Current(s)| + |Letting(s)| + |s.freed|;
  }

  lemma StartConserved(c: Config)
    ensures Conserved(c, Start(c))
  {
    forall b: Command
      ensures Times(Start(c), b) == if b.Buffer? then (if b.id < c.mixahead then 1 else 0) else 0
    {
      BuffersOnce(c.mixahead, b);
    }
  }

  lemma StartInv(c: Config)
    ensures Inv(c, Start(c))
  {
    StartConserved(c);
    assert Chain(Start(c)) == [];
    assert FramesIn(c, 0) == 0;
    hide Conserved;
  }

  /**
   The three spin loops succeed at once: a claimed permit stands for a command, and there is
   always room for a command that is in someone's hand.
   */
  lemma SpinsSucceed(c: Config, s: State)
    requires Inv(c, s)
    ensures s.permits <= |s.returned|
    ensures s.worker.Popping? ==> s.permits < |s.returned| && s.returned != []
    ensures s.worker.Pushing? ==> |s.prepared| < c.mixahead
    ensures s.io.Releasing? ==> |s.returned| < c.mixahead
  {
    Sizes(c, s);
    hide Conserved, InOrder, Exact;
  }

  // Changing one buffer leaves the others' blocks alone.
  lemma HoldsStill(c: Config, s: State, s': State, b: Command, k: int, read: nat, id: nat)
    requires HoldsBlock(c, s, b, k, read) && id < c.mixahead && b != Buffer(id)
    requires |s'.data| == |s'.used| == c.mixahead
    requires forall i: nat :: i < c.mixahead && i != id ==> s'.data[i] == s.data[i] && s'.used[i] == s.used[i]
    ensures HoldsBlock(c, s', b, k, read)
  {
  }

  // A buffer in the worker's hand is in no other place.
  lemma HandApart(c: Config, s: State)
    requires Conserved(c, s) && StopLast(s) && s.worker.Mixing?
    ensures s.worker.cmd.Buffer? && s.worker.cmd.id < c.mixahead && s.worker.cmd !in Chain(s)
  {
    var b := s.worker.cmd;
    Apart(c, s, b);
    NumIn(Hand(s), b);
    NumIn(s.prepared, b);
    NumIn(Current(s), b);
    assert b in Hand(s);
    hide Num, Conserved, StopLast;
  }

  // A step that moves no stop in or out and no command but from one place to another.
  lemma StillConserved(c: Config, s: State, s': State)
    requires Conserved(c, s) && StopAbout(s') == StopAbout(s)
    requires forall b: Command :: Times(s', b) == Times(s, b)
    ensures Conserved(c, s')
  {
    hide Times, StopAbout;
  }

  // A step that touches neither the buffers nor the chain.
  lemma SameChain(c: Config, s: State, s': State)
    requires InOrder(c, s) && Exact(c, s)
    requires s'.data == s.data && s'.used == s.used && s'.blocks == s.blocks && s'.delivered == s.delivered
    requires Chain(s') == Chain(s) && UsedOfCurrent(s') == UsedOfCurrent(s)
    requires s'.current == s.current
    requires (s'.io.Copying? ==> s'.current.Some?) && (s'.io.Releasing? ==> s'.current.None?)
    ensures InOrder(c, s') && Exact(c, s')
  {
    hide Chain, UsedOfCurrent, Block;
    forall i | 0 <= i < |Chain(s')|
      ensures HoldsBlock(c, s', Chain(s')[i], s'.blocks - |Chain(s')| + i, if i == 0 then UsedOfCurrent(s') else 0)
    {
      assert HoldsBlock(c, s, Chain(s)[i], s.blocks - |Chain(s)| + i, if i == 0 then UsedOfCurrent(s) else 0);
    }
  }

  // A step that moves nothing at all.
  lemma NothingMoved(c: Config, s: State, s': State)
    requires Inv(c, s)
    requires s' == s.(permits := s'.permits, worker := s'.worker, io := s'.io, mixed := s'.mixed,
                      finishedInitialMix := s'.finishedInitialMix)
    requires Hand(s') == Hand(s) && Letting(s') == Letting(s) && (s'.worker.Pushing? <==> s.worker.Pushing?)
    requires StopAbout(s') == StopAbout(s) && (s'.worker.Done? <==> s.worker.Done?) && (Freeing(s) ==> Freeing(s'))
    requires Freeing(s') ==> s'.worker.Done?
    requires s'.worker.Done? ==> s'.io.Joining? || Freeing(s')
    requires s'.permits + Claimed(s') + Pending(s') == s.permits + Claimed(s) + Pending(s)
    requires s'.io.Copying? ==> s'.current.Some?
    ensures Inv(c, s')
  {
    assert forall b: Command :: Times(s', b) == Times(s, b);
    StillConserved(c, s, s');
    assert Chain(s') == Chain(s);
    if !Freeing(s') { SameChain(c, s, s'); }
    hide Conserved, Times, InOrder, Exact, Num, Chain;
  }

  lemma ClaimKeeps(c: Config, s: State)
    requires Inv(c, s) && s.worker.Waiting?
    ensures Inv(c, Claim(s))
  {
    hide Inv, Claimed;
    ClaimedIs(s);
    ClaimedIs(Claim(s));
    InvIs(c, s);
    NothingMoved(c, s, Claim(s));
  }

  lemma ClaimedIs(s: State)
    ensures Claimed(s) == if s.worker.Popping? then 1 else 0
  {
  }

  lemma InvIs(c: Config, s: State)
    requires Inv(c, s)
    ensures Conserved(c, s) && StopLast(s) && PermitsMatch(s)
    ensures !Freeing(s) ==> InOrder(c, s) && Exact(c, s)
    ensures s.delivered == Prefix(c, |s.delivered|)
  {
  }

  lemma CountKeeps(c: Config, s: State)
    requires Inv(c, s) && s.worker.Counting?
    ensures Inv(c, Count(c, s))
  {
    hide Conserved, Exact, Prefix, Block, Chain;
    NothingMoved(c, s, Count(c, s));
  }

  lemma PopKeeps(c: Config, s: State)
    requires Inv(c, s) && s.worker.Popping?
    ensures Inv(c, Pop(s))
  {
    hide Num, Block, Prefix, HoldsBlock;
    SpinsSucceed(c, s);
    var s' := Pop(s);
    forall b: Command
      ensures Times(s', b) == Times(s, b) - (if s.returned[0] == Stop && b == Stop then 1 else 0)
    {
      NumHead(s.returned, b);
      NumPush([], s.returned[0], b);
    }
    PopConserves(c, s, s');
    assert Chain(s') == Chain(s);
    if !Freeing(s') { SameChain(c, s, s'); }
    hide Conserved, InOrder, Exact;
  }

  lemma PopConserves(c: Config, s: State, s': State)
    requires Conserved(c, s) && s.returned != [] && StopAbout(s') == (StopAbout(s) && s.returned[0] != Stop)
    requires s.returned[0] == Stop ==> StopAbout(s)
    requires forall b: Command :: Times(s', b) == Times(s, b) - (if s.returned[0] == Stop && b == Stop then 1 else 0)
    ensures Conserved(c, s')
  {
    hide Times, StopAbout;
  }

  // Mixing adds the next block of the stream at the end.
  lemma MixInOrder(c: Config, s: State)
    requires InOrder(c, s) && Exact(c, s) && Conserved(c, s) && StopLast(s) && s.worker.Mixing?
    ensures InOrder(c, Mix(c, s, s.worker.cmd)) && Exact(c, Mix(c, s, s.worker.cmd))
  {
    hide Conserved, StopLast, Block, Chain, UsedOfCurrent, HoldsBlock;
    HandApart(c, s);
    MixChain(c, s);
    MixHolds(c, s, Mix(c, s, s.worker.cmd), s.worker.cmd);
  }

  lemma MixChain(c: Config, s: State)
    requires s.worker.Mixing? && s.worker.cmd.Buffer? && s.worker.cmd.id < |s.data| == |s.used|
             && s.worker.cmd !in Chain(s)
    ensures var s' := Mix(c, s, s.worker.cmd);
            && Chain(s') == Chain(s) + [s.worker.cmd] && UsedOfCurrent(s') == UsedOfCurrent(s)
            && (Chain(s) == [] ==> s.current.None?) && (s.current.None? ==> UsedOfCurrent(s) == 0)
  {
    assert s.current.Some? ==> Chain(s)[0] == s.current.value;
    hide Block;
  }

  lemma MixHolds(c: Config, s: State, s': State, cmd: Command)
    requires |s.data| == |s.used| == c.mixahead && |Chain(s)| <= s.blocks
    requires cmd.Buffer? && cmd.id < c.mixahead && cmd !in Chain(s)
    requires s' == s.(data := s.data[cmd.id := Block(c, s.blocks)], used := s.used[cmd.id := 0], blocks := s.blocks + 1,
                      worker := Pushing(cmd))
    requires Chain(s') == Chain(s) + [cmd] && UsedOfCurrent(s') == UsedOfCurrent(s)
             && (Chain(s) == [] ==> UsedOfCurrent(s) == 0)
    requires forall i :: 0 <= i < |Chain(s)| ==>
               HoldsBlock(c, s, Chain(s)[i], s.blocks - |Chain(s)| + i, if i == 0 then UsedOfCurrent(s) else 0)
    ensures forall i :: 0 <= i < |Chain(s')| ==>
              HoldsBlock(c, s', Chain(s')[i], s'.blocks - |Chain(s')| + i, if i == 0 then UsedOfCurrent(s') else 0)
  {
    hide Chain, UsedOfCurrent, Block;
    forall i | 0 <= i < |Chain(s')|
      ensures HoldsBlock(c, s', Chain(s')[i], s'.blocks - |Chain(s')| + i, if i == 0 then UsedOfCurrent(s') else 0)
    {
      if i < |Chain(s)| {
        assert Chain(s)[i] in Chain(s);
        HoldsStill(c, s, s', Chain(s)[i], s.blocks - |Chain(s)| + i, if i == 0 then UsedOfCurrent(s) else 0, cmd.id);
      }
    }
  }

  lemma MixKeeps(c: Config, s: State)
    requires Inv(c, s) && s.worker.Mixing?
    ensures Inv(c, Mix(c, s, s.worker.cmd))
  {
    hide Num, Block, Prefix;
    var s' := Mix(c, s, s.worker.cmd);
    assert forall b: Command :: Times(s', b) == Times(s, b);
    StillConserved(c, s, s');
    if !Freeing(s') { MixInOrder(c, s); }
    hide Conserved, InOrder, Exact;
  }

  lemma PushKeeps(c: Config, s: State)
    requires Inv(c, s) && s.worker.Pushing?
    ensures Inv(c, Push(c, s, s.worker.cmd))
  {
    hide Num, Block, Prefix, HoldsBlock;
    var s' := Push(c, s, s.worker.cmd);
    forall b: Command
      ensures Times(s', b) == Times(s, b)
    {
      NumPush(s.prepared, s.worker.cmd, b);
    }
    StillConserved(c, s, s');
    assert Current(s) + (s.prepared + [s.worker.cmd]) == Current(s) + s.prepared + [s.worker.cmd];
    assert Chain(s') == Chain(s);
    if !Freeing(s') { SameChain(c, s, s'); }
    hide Conserved, InOrder, Exact;
  }

  lemma WorkerKeeps(c: Config, s: State)
    requires Inv(c, s)
    ensures Inv(c, WorkerNext(c, s))
  {
    hide Inv, Claim, Pop, Mix, Push, Count;
    match s.worker
    case Waiting => ClaimKeeps(c, s);
    case Popping => PopKeeps(c, s);
    case Mixing(cmd) => MixKeeps(c, s);
    case Pushing(cmd) => PushKeeps(c, s);
    case Counting => CountKeeps(c, s);
    case Done =>
  }

  lemma BeginKeeps(c: Config, s: State, call: Call)
    requires Inv(c, s) && s.io.Idle?
    ensures Inv(c, Begin(s, call))
  {
    hide Conserved, InOrder, Exact, Prefix;
    NothingMoved(c, s, Begin(s, call));
  }

  lemma SignalKeeps(c: Config, s: State)
    requires Inv(c, s) && s.io.Signalling?
    ensures Inv(c, Signal(s, s.io.count, s.io.total, s.io.wrote))
  {
    hide Conserved, InOrder, Exact, Prefix;
    NothingMoved(c, s, Signal(s, s.io.count, s.io.total, s.io.wrote));
  }

  lemma SignalStopKeeps(c: Config, s: State)
    requires Inv(c, s) && s.io.StopSignalling?
    ensures Inv(c, SignalStop(s))
  {
    hide Conserved, InOrder, Exact, Prefix;
    NothingMoved(c, s, SignalStop(s));
  }

  lemma JoinKeeps(c: Config, s: State)
    requires Inv(c, s) && s.io.Joining?
    ensures Inv(c, Join(s))
  {
    hide Conserved, InOrder, Exact, Prefix;
    NothingMoved(c, s, Join(s));
  }

  lemma HelpKeeps(c: Config, s: State)
    requires Inv(c, s) && s.io.Helping?
    ensures Inv(c, Help(s, s.io.count, s.io.total))
  {
    hide Num, Block, Prefix;
    var s' := Help(s, s.io.count, s.io.total);
    if s.current.Some? || s.prepared == [] {
      hide Conserved, InOrder, Exact;
      NothingMoved(c, s, s');
    } else {
      forall b: Command
        ensures Times(s', b) == Times(s, b)
      {
        NumHead(s.prepared, b);
        NumPush([], s.prepared[0], b);
      }
      StillConserved(c, s, s');
      TakeInOrder(c, s, s');
      hide Conserved, InOrder, Exact;
    }
  }

  // The oldest prepared buffer becomes the current one.
  lemma TakeInOrder(c: Config, s: State, s': State)
    requires InOrder(c, s) && Exact(c, s) && s.io.Helping? && s.current.None? && s.prepared != []
    requires s' == s.(current := Some(s.prepared[0]), prepared := s.prepared[1..],
                      io := Copying(s.io.count, s.io.total))
    ensures InOrder(c, s') && Exact(c, s')
  {
    hide Block;
    assert [s.prepared[0]] + s.prepared[1..] == s.prepared;
    assert Chain(s') == Chain(s);
    assert HoldsBlock(c, s, Chain(s)[0], s.blocks - |Chain(s)| + 0, UsedOfCurrent(s));
    assert UsedOfCurrent(s') == 0;
    forall i | 0 <= i < |Chain(s')|
      ensures HoldsBlock(c, s', Chain(s')[i], s'.blocks - |Chain(s')| + i, if i == 0 then UsedOfCurrent(s') else 0)
    {
      assert HoldsBlock(c, s, Chain(s)[i], s.blocks - |Chain(s)| + i, if i == 0 then UsedOfCurrent(s) else 0);
    }
  }

  lemma ReleaseKeeps(c: Config, s: State)
    requires Inv(c, s) && s.io.Releasing?
    ensures Inv(c, Release(c, s, s.io.cmd, s.io.count, s.io.total, s.io.wrote))
  {
    hide Num, Block, Prefix, HoldsBlock;
    SpinsSucceed(c, s);
    LettingBuffer(c, s);
    var s' := Release(c, s, s.io.cmd, s.io.count, s.io.total, s.io.wrote);
    forall b: Command
      ensures Times(s', b) == Times(s, b)
    {
      NumPush(s.returned, s.io.cmd, b);
    }
    StillConserved(c, s, s');
    assert Chain(s') == Chain(s);
    SameChain(c, s, s');
    hide Conserved, InOrder, Exact;
  }

  lemma LettingBuffer(c: Config, s: State)
    requires Inv(c, s) && s.io.Releasing?
    ensures s.io.cmd.Buffer?
  {
    Apart(c, s, s.io.cmd);
    assert s.io.cmd in Letting(s);
  }

  lemma PushStopKeeps(c: Config, s: State)
    requires Inv(c, s) && s.io.StopPushing?
    ensures Inv(c, PushStop(c, s))
  {
    hide Num, Block, Prefix, HoldsBlock;
    var s' := PushStop(c, s);
    if |s.returned| < c.mixahead {
      forall b: Command
        ensures Times(s', b)
                == if b.Buffer? then (if b.id < c.mixahead then 1 else 0) else if StopAbout(s') then 1 else 0
      {
        TimesOnce(c, s, b);
        NumPush(s.returned, Stop, b);
      }
      assert Chain(s') == Chain(s);
      SameChain(c, s, s');
      hide Times, InOrder, Exact;
    }
  }

  lemma FreeReturnedKeeps(c: Config, s: State)
    requires Inv(c, s) && s.io.FreeingReturned?
    ensures Inv(c, FreeReturned(s))
  {
    hide Conserved, InOrder, Exact, Prefix;
    NothingMoved(c, s, FreeReturned(s));
  }

  lemma FreePreparedKeeps(c: Config, s: State)
    requires Inv(c, s) && s.io.FreeingPrepared?
    ensures Inv(c, FreePrepared(s))
  {
    hide Num, Block, Prefix, InOrder, Exact;
    var s' := FreePrepared(s);
    forall b: Command
      ensures Times(s', b) == Times(s, b)
    {
      if s.prepared != [] {
        NumHead(s.prepared, b);
        NumPush(s.freed, s.prepared[0], b);
      }
    }
    StillConserved(c, s, s');
    hide Conserved;
  }

  lemma PrefixMore(c: Config, k: nat, u: nat, w: nat)
    requires u + w <= c.frames
    ensures FramesIn(c, k) >= 0
    ensures Prefix(c, FramesIn(c, k) + u) + Block(c, k)[u..u + w] == Prefix(c, FramesIn(c, k) + u + w)
    ensures FramesIn(c, k + 1) == FramesIn(c, k) + c.frames
  {
    MulMono(0, k, c.frames);
    Distribute(k, 1, c.frames);
    var n := FramesIn(c, k);
    var l, r := Prefix(c, n + u) + Block(c, k)[u..u + w], Prefix(c, n + u + w);
    forall i | 0 <= i < n + u + w
      ensures l[i] == r[i]
    {
      if i >= n + u {
        assert l[i] == Block(c, k)[i - n];
        assert Block(c, k)[i - n] == c.stream(k * c.frames + (i - n));
      }
    }
    assert l == r;
  }

  // The current buffer is the first of the chain and nowhere else in it.
  lemma CurrentFirst(c: Config, s: State)
    requires Conserved(c, s) && StopLast(s) && s.current.Some?
    ensures |Chain(s)| > 0 && Chain(s)[0] == s.current.value && s.current.value !in Chain(s)[1..]
    ensures s.current.value.Buffer? && s.current.value.id < c.mixahead
  {
    var b := s.current.value;
    Apart(c, s, b);
    NumIn(Hand(s), b);
    NumIn(s.prepared, b);
    NumIn(Current(s), b);
    assert b in Current(s);
    assert Chain(s)[1..] == s.prepared + (if s.worker.Pushing? then [s.worker.cmd] else []);
    hide Num, Conserved, StopLast;
  }

  lemma WillWriteFacts(c: Config, s: State, id: nat, count: nat)
    requires id < |s.used| && s.used[id] <= c.frames
    ensures WillWrite(c, s, id, count) <= count && s.used[id] + WillWrite(c, s, id, count) <= c.frames
    ensures WillWrite(c, s, id, count) == Min(c.frames - s.used[id], count)
  {
  }

  // What a copy does to the frames, the reader's place apart: it delivers the next of the stream.
  lemma CopyDelivers(c: Config, s: State, count: nat, total: nat)
    requires Inv(c, s) && s.io == Copying(count, total)
    ensures s.current.Some? && s.current.value.Buffer? && s.current.value.id < |s.used| && !Freeing(s) && |Chain(s)| > 0
    ensures UsedOfCurrent(s) <= c.frames && |Chain(s)| <= s.blocks
    ensures var s' := Copy(c, s, count, total);
            var w := WillWrite(c, s, s.current.value.id, count);
            var u := UsedOfCurrent(s);
            && w == Min(c.frames - u, count)
            && s'.used == s.used[s.current.value.id := u + w] && s'.data == s.data && s'.blocks == s.blocks
            && |s'.delivered| == FramesIn(c, s.blocks - |Chain(s)|) + u + w
            && s'.delivered == Prefix(c, |s'.delivered|)
            && s'.current == (if u + w == c.frames then None else s.current)
            && s'.prepared == s.prepared && s'.worker == s.worker
            && (s'.io.Releasing? <==> u + w == c.frames) && !s'.io.Copying?
  {
    hide Conserved, StopLast, PermitsMatch, Prefix, Chain, Block;
    CurrentFirst(c, s);
    assert HoldsBlock(c, s, Chain(s)[0], s.blocks - |Chain(s)| + 0, UsedOfCurrent(s));
    WillWriteFacts(c, s, s.current.value.id, count);
    var w := WillWrite(c, s, s.current.value.id, count);
    PrefixMore(c, s.blocks - |Chain(s)|, UsedOfCurrent(s), w);
    hide WillWrite, FramesIn;
  }

  lemma CopyChain(s: State, s': State)
    requires s.current.Some? && s'.prepared == s.prepared && s'.worker == s.worker
    ensures |Chain(s)| > 0
    ensures s'.current == s.current ==> Chain(s') == Chain(s)
    ensures s'.current == None ==> Chain(s') == Chain(s)[1..]
  {
  }

  lemma CopyHolds(c: Config, s: State, s': State, v: nat)
    requires InOrder(c, s) && Conserved(c, s) && StopLast(s) && s.current.Some?
    requires s.current.value.Buffer? && s.current.value.id < |s.used|
    requires s'.used == s.used[s.current.value.id := v] && s'.data == s.data && s'.blocks == s.blocks
    requires s'.current == s.current || s'.current == None
    requires s'.prepared == s.prepared && s'.worker == s.worker
    ensures s'.current == s.current ==> UsedOfCurrent(s') == v
    ensures |Chain(s')| <= s'.blocks
    ensures forall i :: 0 <= i < |Chain(s')| ==>
              HoldsBlock(c, s', Chain(s')[i], s'.blocks - |Chain(s')| + i, if i == 0 then UsedOfCurrent(s') else 0)
  {
    hide Conserved, StopLast, Chain, Block;
    CurrentFirst(c, s);
    CopyChain(s, s');
    assert HoldsBlock(c, s, Chain(s)[0], s.blocks - |Chain(s)| + 0, UsedOfCurrent(s));
    var d := if s'.current == None then 1 else 0;
    forall i | 0 <= i < |Chain(s')|
      ensures HoldsBlock(c, s', Chain(s')[i], s'.blocks - |Chain(s')| + i, if i == 0 then UsedOfCurrent(s') else 0)
    {
      if i + d > 0 {
        assert Chain(s)[i + d] == Chain(s)[1..][i + d - 1];
        HoldsStill(c, s, s', Chain(s)[i + d], s.blocks - |Chain(s)| + (i + d), 0, s.current.value.id);
      }
    }
  }

  lemma CopyKeepsCommands(c: Config, s: State, count: nat, total: nat)
    requires Inv(c, s) && s.io == Copying(count, total) && s.current.Some?
    ensures var s' := Copy(c, s, count, total);
            && Conserved(c, s') && StopLast(s') && PermitsMatch(s')
  {
    hide Num, Block, Prefix, WillWrite, InOrder, Exact;
    var s' := Copy(c, s, count, total);
    forall b: Command
      ensures Times(s', b) == Times(s, b)
    {
      NumPush([], s.current.value, b);
    }
    StillConserved(c, s, s');
    hide Conserved;
  }

  lemma CopyKeeps(c: Config, s: State, count: nat, total: nat)
    requires Inv(c, s) && s.io == Copying(count, total)
    ensures Inv(c, Copy(c, s, count, total))
  {
    hide Inv, Copy, HoldsBlock, Chain, WillWrite, Conserved, StopLast, PermitsMatch, Prefix;
    InvIs(c, s);
    CopyDelivers(c, s, count, total);
    CopyKeepsCommands(c, s, count, total);
    var s' := Copy(c, s, count, total);
    CopyHolds(c, s, s', UsedOfCurrent(s) + WillWrite(c, s, s.current.value.id, count));
    CopyChain(s, s');
    PrefixMore(c, s.blocks - |Chain(s)|, 0, 0);
    hide FramesIn;
    assert InOrder(c, s') && Exact(c, s');
    IsInv(c, s');
  }

  lemma IsInv(c: Config, s: State)
    requires Conserved(c, s) && StopLast(s) && PermitsMatch(s)
    requires InOrder(c, s) && Exact(c, s)
    requires s.delivered == Prefix(c, |s.delivered|)
    ensures Inv(c, s)
  {
  }

  lemma IoKeeps(c: Config, s: State, call: Call)
    requires Inv(c, s)
    ensures Inv(c, IoNext(c, s, call))
  {
    hide Inv, Begin, Help, Copy, Release, Signal, PushStop, SignalStop, Join, FreeReturned, FreePrepared;
    match s.io
    case Idle => BeginKeeps(c, s, call);
    case Helping(count, total) => HelpKeeps(c, s);
    case Copying(count, total) => CopyKeeps(c, s, count, total);
    case Releasing(cmd, count, total, wrote) => ReleaseKeeps(c, s);
    case Signalling(count, total, wrote) => SignalKeeps(c, s);
    case StopPushing => PushStopKeeps(c, s);
    case StopSignalling => SignalStopKeeps(c, s);
    case Joining => JoinKeeps(c, s);
    case FreeingReturned => FreeReturnedKeeps(c, s);
    case FreeingPrepared => FreePreparedKeeps(c, s);
    case Gone =>
  }

  datatype Move = WorkerMoves | IoMoves(call: Call)

  function Next(c: Config, s: State, m: Move): State {
    match m
    case WorkerMoves => WorkerNext(c, s)
    case IoMoves(call) => IoNext(c, s, call)
  }

  // A run of the two threads, interleaved any way: m chooses who moves.
  ghost predicate IsRun(c: Config, run: seq<State>, moves: seq<Move>) {
    && |run| == |moves| + 1 && run[0] == Start(c)
    && forall i: nat :: i < |moves| ==> run[i + 1] == Next(c, run[i], moves[i])
  }

  // The run in which the threads move as told.
  function RunOf(c: Config, moves: seq<Move>): (run: seq<State>)
    ensures |run| == |moves| + 1
  {
    if moves == [] then [Start(c)]
    else
      var before := RunOf(c, moves[..|moves| - 1]);
      before + [Next(c, before[|moves| - 1], moves[|moves| - 1])]
  }

  lemma {:induction false} RunOfIsRun(c: Config, moves: seq<Move>)
    ensures IsRun(c, RunOf(c, moves), moves)
  {
    if moves != [] {
      RunOfIsRun(c, moves[..|moves| - 1]);
      var n := |moves| - 1;
      var before, run := RunOf(c, moves[..n]), RunOf(c, moves);
      hide Next, Start, RunOf;
      forall i: nat | i < |moves|
        ensures run[i + 1] == Next(c, run[i], moves[i])
      {
        if i < n { assert before[i + 1] == Next(c, before[i], moves[..n][i]); }
      }
    }
  }

  lemma {:induction false} RunInv(c: Config, run: seq<State>, moves: seq<Move>, i: nat)
    requires IsRun(c, run, moves) && i < |run|
    ensures Inv(c, run[i]) && Calls(c, run[i])
  {
    hide Inv, Calls, WorkerNext, IoNext;
    if i == 0 {
      StartInv(c);
      StartCalls(c);
    } else {
      RunInv(c, run, moves, i - 1);
      assert run[i - 1 + 1] == Next(c, run[i - 1], moves[i - 1]);
      match moves[i - 1]
      case WorkerMoves =>
        WorkerKeeps(c, run[i - 1]);
        WorkerKeepsCalls(c, run[i - 1]);
      case IoMoves(call) =>
        IoKeeps(c, run[i - 1], call);
        IoKeepsCalls(c, run[i - 1], call);
    }
  }

  /**
   The stream theorem: under every interleaving, what all writes together have delivered is
   exactly the beginning of the stream, and every frame mixed is delivered or still waits in the
   pipeline. Nothing is lost, repeated or reordered by short writes or by reading blocks in parts.
   */
  lemma DeliveredIsPrefix(c: Config, run: seq<State>, moves: seq<Move>, i: nat)
    requires IsRun(c, run, moves) && i < |run|
    ensures run[i].delivered == Prefix(c, |run[i].delivered|)
    ensures |run[i].delivered| <= run[i].blocks * c.frames
    ensures !Freeing(run[i]) ==>
              |run[i].delivered| + (|Chain(run[i])| * c.frames - UsedOfCurrent(run[i])) == run[i].blocks * c.frames
  {
    RunInv(c, run, moves, i);
    InvIs(c, run[i]);
    Distribute(run[i].blocks, |Chain(run[i])|, c.frames);
    hide Conserved, StopLast, PermitsMatch, InOrder, Inv, Prefix, Chain;
  }

  predicate InWrite(s: State) {
    s.io.Helping? || s.io.Copying? || s.io.Releasing? || s.io.Signalling?
  }

  // A write that gives a buffer back without having written has blocks of no frames; nothing is
  // delivered that has not been mixed; and when the destructor is through, nothing is prepared.
  ghost predicate Calls(c: Config, s: State) {
    && (s.io.Releasing? || s.io.Signalling? ==> s.io.wrote > 0 || c.frames == 0)
    && |s.delivered| <= FramesIn(c, s.blocks)
    && (s.io.Gone? ==> s.prepared == [] && s.worker.Done?)
  }

  lemma StartCalls(c: Config)
    ensures Calls(c, Start(c))
  {
    assert FramesIn(c, 0) == 0;
  }

  lemma WorkerKeepsCalls(c: Config, s: State)
    requires Calls(c, s)
    ensures Calls(c, WorkerNext(c, s))
  {
    FramesGrow(c, s.blocks, s.blocks + 1);
    hide FramesIn, Block;
  }

  lemma FramesGrow(c: Config, m: int, n: int)
    requires m <= n
    ensures FramesIn(c, m) <= FramesIn(c, n)
    ensures m < n ==> FramesIn(c, m) + c.frames <= FramesIn(c, n)
  {
    MulMono(m, n, c.frames);
    if m < n {
      MulMono(m + 1, n, c.frames);
      Distribute(m, 1, c.frames);
    }
  }

  lemma IoKeepsCalls(c: Config, s: State, call: Call)
    requires Inv(c, s) && Calls(c, s)
    ensures Calls(c, IoNext(c, s, call))
  {
    hide Inv, Prefix, Copy, FramesIn;
    if s.io.Copying? {
      CopyWrote(c, s, s.io.count, s.io.total);
      CopyBound(c, s, s.io.count, s.io.total);
    } else {
      FreeingDone(c, s);
    }
  }

  lemma FreeingDone(c: Config, s: State)
    requires Inv(c, s)
    ensures Freeing(s) ==> s.worker.Done?
  {
    InvIs(c, s);
    hide Inv, Conserved, InOrder, Exact, PermitsMatch;
  }

  lemma CopyBound(c: Config, s: State, count: nat, total: nat)
    requires Inv(c, s) && s.io == Copying(count, total)
    ensures |Copy(c, s, count, total).delivered| <= FramesIn(c, Copy(c, s, count, total).blocks)
  {
    hide Copy, Inv, Prefix, Chain, WillWrite, FramesIn, UsedOfCurrent;
    CopyDelivers(c, s, count, total);
    FramesGrow(c, s.blocks - |Chain(s)|, s.blocks);
  }

  lemma CopyWrote(c: Config, s: State, count: nat, total: nat)
    requires Inv(c, s) && s.io == Copying(count, total)
    ensures !Copy(c, s, count, total).io.Signalling? && !Copy(c, s, count, total).io.Gone?
    ensures Copy(c, s, count, total).io.Releasing? ==> Copy(c, s, count, total).io.wrote > 0 || c.frames == 0
  {
    CurrentIs(c, s, count, total);
    CopyCounts(c, s, count, total);
    hide Copy, Inv;
  }

  lemma CurrentIs(c: Config, s: State, count: nat, total: nat)
    requires Inv(c, s) && s.io == Copying(count, total)
    ensures s.current.Some? && s.current.value.Buffer? && s.current.value.id < |s.used| == |s.data|
    ensures UsedOfCurrent(s) == s.used[s.current.value.id] <= c.frames && (c.frames > 0 ==> UsedOfCurrent(s) < c.frames)
  {
    CopyDelivers(c, s, count, total);
    hide Chain, Prefix, Conserved, HoldsBlock, StopLast, Copy;
  }

  // Frames a write in progress has delivered, and frames it has still to deliver.
  function Written(s: State): nat {
    if InWrite(s) then s.io.total else 0
  }

  function Wanted(s: State): nat {
    if InWrite(s) then s.io.count else 0
  }

  /**
   The count a write returns is what it has delivered: total and delivered frames grow together,
   and total and the frames still wanted add up to the count asked for.
   */
  lemma WriteCounts(c: Config, s: State, call: Call)
    requires Inv(c, s) && InWrite(s)
    ensures var s' := IoNext(c, s, call);
            && |s'.delivered| >= |s.delivered|
            && (InWrite(s') ==>
                  && |s'.delivered| - Written(s') == |s.delivered| - Written(s)
                  && Written(s') + Wanted(s') == Written(s) + Wanted(s))
            && (!InWrite(s') ==> s'.io.Idle? && s'.delivered == s.delivered)
  {
    hide Inv, Prefix, Copy;
    if s.io.Copying? {
      CopyGrows(c, s, s.io.count, s.io.total);
    }
  }

  lemma CopyGrows(c: Config, s: State, count: nat, total: nat)
    requires Inv(c, s) && s.io == Copying(count, total)
    ensures var s' := Copy(c, s, count, total);
            && |s'.delivered| >= |s.delivered|
            && (InWrite(s') ==>
                  && |s'.delivered| - Written(s') == |s.delivered| - Written(s)
                  && Written(s') + Wanted(s') == total + count)
            && (!InWrite(s') ==> s'.io.Idle? && s'.delivered == s.delivered && count == 0)
  {
    CurrentIs(c, s, count, total);
    CopyCounts(c, s, count, total);
    CopyDelivers(c, s, count, total);
    InvIs(c, s);
    hide Copy, Inv, Prefix, Chain, FramesIn, Conserved, StopLast, PermitsMatch, InOrder, WillWrite;
    var s' := Copy(c, s, count, total);
    SameFrames(s.delivered, s'.delivered, c);
  }

  lemma SameFrames(a: seq<Frame>, b: seq<Frame>, c: Config)
    ensures a == Prefix(c, |a|) && b == Prefix(c, |b|) && |a| == |b| ==> a == b
  {
  }

  // What is left of a write after a copy.
  lemma CopyCounts(c: Config, s: State, count: nat, total: nat)
    requires s.current.Some? && s.current.value.Buffer? && s.current.value.id < |s.used| == |s.data|
             && s.used[s.current.value.id] <= c.frames
    ensures var s' := Copy(c, s, count, total);
            var w := Min(c.frames - s.used[s.current.value.id], count);
            && 0 <= w <= count && w == WillWrite(c, s, s.current.value.id, count)
            && (if s.used[s.current.value.id] + w == c.frames
                then s'.io == Releasing(s.current.value, count - w, total + w, w)
                else s'.io == Again(count - w, total + w, w))
  {
    hide Prefix, Block;
  }

  /**
   A write returns less than it was asked for only when nothing is prepared and no buffer is
   partly read, that is on an underrun; blocks of no frames apart, which never deliver anything.
   */
  lemma ShortOnlyOnUnderrun(c: Config, s: State, call: Call)
    requires Inv(c, s) && Calls(c, s) && InWrite(s) && Wanted(s) > 0 && c.frames > 0
    requires IoNext(c, s, call).io.Idle?
    ensures s.prepared == [] && s.current == None
    ensures s.io.Helping?
  {
    hide Inv, Copy;
    if s.io.Copying? { CopyGrows(c, s, s.io.count, s.io.total); }
  }

  // With blocks of no frames, which happens when the block is shorter than one output frame,
  // nothing is ever delivered, however much is prepared.
  lemma EmptyBlocksDeliverNothing(c: Config, run: seq<State>, moves: seq<Move>, i: nat)
    requires IsRun(c, run, moves) && i < |run| && c.frames == 0 && !Freeing(run[i])
    ensures run[i].delivered == []
  {
    RunInv(c, run, moves, i);
    InvIs(c, run[i]);
    hide Conserved, StopLast, PermitsMatch, Calls, Inv, Prefix, Chain, HoldsBlock;
  }

  function WorkerSteps(c: Config, s: State, n: nat): State {
    if n == 0 then s else WorkerNext(c, WorkerSteps(c, s, n - 1))
  }

  /**
   The destructor's push of the stop always gets through: even with the queue full, three steps
   of the worker, none of which it can be kept from, make room.
   */
  lemma StopAccepted(c: Config, s: State)
    requires Inv(c, s) && s.io.StopPushing? && |s.returned| >= c.mixahead
    ensures !WorkerBlocked(s)
    ensures |WorkerSteps(c, s, 3).returned| < c.mixahead
    ensures IoNext(c, WorkerSteps(c, s, 3), Destroy).io.StopSignalling?
  {
    hide Inv, Block;
    InvIs(c, s);
    Sizes(c, s);
    hide Conserved, InOrder, Exact, Prefix;
    assert WorkerSteps(c, s, 1) == WorkerNext(c, WorkerSteps(c, s, 0));
    assert WorkerSteps(c, s, 2) == WorkerNext(c, WorkerSteps(c, s, 1));
    assert WorkerSteps(c, s, 3) == WorkerNext(c, WorkerSteps(c, s, 2));
    assert s.returned[0] != Stop;
    hide WorkerSteps;
  }

  // How many more steps the worker has before it ends.
  function ToJoin(s: State): nat {
    5 * |s.returned|
    + match s.worker
      case Waiting => 1
      case Popping => 0
      case Mixing(_) => 4
      case Pushing(_) => 3
      case Counting => 2
      case Done => 0
  }

  /**
   The join ends: once the stop is signalled the worker is never blocked until it is done, and
   every step of it brings the end closer.
   */
  lemma JoinEnds(c: Config, s: State)
    requires Inv(c, s) && s.io.Joining? && !s.worker.Done?
    ensures !WorkerBlocked(s) && ToJoin(WorkerNext(c, s)) < ToJoin(s)
    ensures WorkerNext(c, s).io.Joining?
  {
    hide Inv, Block;
    InvIs(c, s);
    SpinsSucceed(c, s);
    if s.worker.Mixing? { MixMoves(c, s); }
    hide Conserved, InOrder, Exact, Prefix;
  }

  lemma MixMoves(c: Config, s: State)
    requires Inv(c, s) && !Freeing(s) && s.worker.Mixing?
    ensures WorkerNext(c, s).worker == Pushing(s.worker.cmd) && WorkerNext(c, s).returned == s.returned
  {
    InvIs(c, s);
    HandApart(c, s);
    hide Conserved, Inv, Prefix, Block;
  }

  /**
   After the join: the returned queue is empty, the stop is in neither queue and never freed, and
   every buffer is in exactly one place: prepared, current, or freed. So nothing is freed twice.
   */
  lemma AfterJoin(c: Config, s: State)
    requires Inv(c, s) && Freeing(s)
    ensures s.returned == [] && Stop !in s.prepared && Stop !in s.freed
    ensures forall id: nat :: id < c.mixahead ==>
              Num(s.prepared, Buffer(id)) + Num(Current(s), Buffer(id)) + Num(s.freed, Buffer(id)) == 1
    ensures forall i, j :: 0 <= i < j < |s.freed| ==> s.freed[i] != s.freed[j]
  {
    Apart(c, s, Stop);
    forall id: nat | id < c.mixahead
      ensures Num(s.prepared, Buffer(id)) + Num(Current(s), Buffer(id)) + Num(s.freed, Buffer(id)) == 1
    {
      TimesOnce(c, s, Buffer(id));
    }
    forall i, j | 0 <= i < j < |s.freed|
      ensures s.freed[i] != s.freed[j]
    {
      Apart(c, s, s.freed[i]);
      if s.freed[i] == s.freed[j] { TwiceThere(s.freed, i, j); }
    }
  }

  lemma TwiceThere(q: seq<Command>, i: nat, j: nat)
    requires i < j < |q| && q[i] == q[j]
    ensures Num(q, q[i]) >= 2
  {
    assert q == q[..i] + [q[i]] + q[i + 1..j] + [q[j]] + q[j + 1..];
  }

  // When the destructor is through, every buffer but the one partly read has been freed.
  lemma AllFreed(c: Config, s: State, id: nat)
    requires Inv(c, s) && Calls(c, s) && s.io.Gone? && id < c.mixahead
    ensures Buffer(id) in s.freed <==> s.current != Some(Buffer(id))
  {
    AfterJoin(c, s);
    assert Num(s.prepared, Buffer(id)) + Num(Current(s), Buffer(id)) + Num(s.freed, Buffer(id)) == 1;
    NumIn(s.freed, Buffer(id));
    NumIn(Current(s), Buffer(id));
    NumIn(s.prepared, Buffer(id));
  }

  // The worker alone has mixed k blocks and is waiting again.
  ghost predicate MixedAhead(c: Config, s: State, k: nat) {
    && k <= c.mixahead && s.worker.Waiting? && s.permits == c.mixahead - k && s.io.Idle? && s.current.None?
    && s.returned == Buffers(c.mixahead)[k..] && |s.prepared| == k
    && |s.data| == |s.used| == c.mixahead
    && s.mixed == s.blocks == k && s.finishedInitialMix == (k == c.mixahead)
  }

  lemma MixOneMore(c: Config, s: State, k: nat)
    requires MixedAhead(c, s, k) && k < c.mixahead
    ensures MixedAhead(c, WorkerNext(c, WorkerNext(c, WorkerNext(c, WorkerNext(c, WorkerNext(c, s))))), k + 1)
  {
    hide Block;
    var s1 := Claim(s);
    var s2 := Pop(s1);
    assert s.returned[0] == Buffer(k) && s.returned[1..] == Buffers(c.mixahead)[k + 1..];
    var s3 := Mix(c, s2, Buffer(k));
    var s4 := Push(c, s3, Buffer(k));
    var s5 := Count(c, s4);
    hide Claim, Pop, Mix, Push, Count;
    assert WorkerNext(c, s) == s1 && WorkerNext(c, s1) == s2 && WorkerNext(c, s2) == s3 && WorkerNext(c, s3) == s4
        && WorkerNext(c, s4) == s5;
  }

  // awaitInitialMix returns: the worker alone mixes all of mixahead blocks and then says so.
  lemma {:induction false} InitialMixEnds(c: Config, k: nat)
    requires k <= c.mixahead
    ensures MixedAhead(c, WorkerSteps(c, Start(c), 5 * k), k)
  {
    hide WorkerNext, MixedAhead;
    if k == 0 {
      StartsMixing(c);
    } else {
      InitialMixEnds(c, k - 1);
      var n := 5 * (k - 1);
      assert WorkerSteps(c, Start(c), n + 1) == WorkerNext(c, WorkerSteps(c, Start(c), n));
      assert WorkerSteps(c, Start(c), n + 2) == WorkerNext(c, WorkerSteps(c, Start(c), n + 1));
      assert WorkerSteps(c, Start(c), n + 3) == WorkerNext(c, WorkerSteps(c, Start(c), n + 2));
      assert WorkerSteps(c, Start(c), n + 4) == WorkerNext(c, WorkerSteps(c, Start(c), n + 3));
      assert WorkerSteps(c, Start(c), n + 5) == WorkerNext(c, WorkerSteps(c, Start(c), n + 4));
      MixOneMore(c, WorkerSteps(c, Start(c), n), k - 1);
    }
  }

  lemma StartsMixing(c: Config)
    ensures MixedAhead(c, Start(c), 0)
  {
  }

  // Where the run with these moves ends.
  function After(c: Config, moves: seq<Move>): State {
    RunOf(c, moves)[|moves|]
  }

  lemma AfterMore(c: Config, moves: seq<Move>, m: Move)
    ensures After(c, moves + [m]) == Next(c, After(c, moves), m)
  {
    assert (moves + [m])[..|moves|] == moves;
    hide Next, Start;
  }

  function WorkerOnly(n: nat): seq<Move> {
    seq(n, _ => WorkerMoves)
  }

  lemma {:induction false} AfterWorker(c: Config, n: nat)
    ensures After(c, WorkerOnly(n)) == WorkerSteps(c, Start(c), n)
  {
    hide WorkerNext, Start;
    if n > 0 {
      AfterWorker(c, n - 1);
      AfterMore(c, WorkerOnly(n - 1), WorkerMoves);
      assert WorkerOnly(n) == WorkerOnly(n - 1) + [WorkerMoves];
      hide After;
    }
  }

  lemma AfterInv(c: Config, moves: seq<Move>)
    ensures Inv(c, After(c, moves)) && Calls(c, After(c, moves))
  {
    RunOfIsRun(c, moves);
    RunInv(c, RunOf(c, moves), moves, |moves|);
    hide Inv, Calls, IsRun, RunOf;
  }

  // The next step of the I/O thread ends a write that is still short of what it was asked for.
  predicate EndsShort(c: Config, s: State, call: Call) {
    InWrite(s) && Wanted(s) > 0 && IoNext(c, s, call).io.Idle?
  }

  // It ends because it has looked for a buffer and there was none, nor any partly read.
  predicate FoundNothing(s: State) {
    s.io.Helping? && s.prepared == [] && s.current == None
  }

  ghost predicate OnlyUnderrunsAreShort(c: Config) {
    forall moves: seq<Move>, call: Call ::
      EndsShort(c, After(c, moves), call) ==> FoundNothing(After(c, moves))
  }

  // The moves of a write of one frame, up to its last step, right after the initial mix.
  function ShortWrite(c: Config): seq<Move> {
    WorkerOnly(5 * c.mixahead) + [IoMoves(Write(1))] + [IoMoves(Write(1))] + [IoMoves(Write(1))] + [IoMoves(Write(1))]
  }

  /**
   With blocks of no frames a write comes back empty-handed although every buffer is prepared: the
   run in which the worker mixes everything ahead and a write of one frame follows.
   */
  lemma EmptyBlockEndsShort(c: Config)
    requires c.frames == 0
    ensures var full := After(c, WorkerOnly(5 * c.mixahead));
            full.io.Idle? && |full.prepared| == c.mixahead && full.finishedInitialMix
    ensures var s := After(c, ShortWrite(c));
            && EndsShort(c, s, Write(1)) && !FoundNothing(s)
            && Written(s) == 0 && s.delivered == []
            && |s.prepared| == c.mixahead - 1 && |s.returned| == 1
  {
    hide *;
    var m := IoMoves(Write(1));
    var w := WorkerOnly(5 * c.mixahead);
    AfterWorker(c, 5 * c.mixahead);
    InitialMixEnds(c, c.mixahead);
    AfterMore(c, w, m);
    AfterMore(c, w + [m], m);
    AfterMore(c, w + [m] + [m], m);
    AfterMore(c, w + [m] + [m] + [m], m);
    AfterInv(c, w + [m] + [m]);
    ShortWriteIs(c);
    AfterInv(c, ShortWrite(c));
    EmptyTaken(c, After(c, w));
    EmptyGivenBack(c, After(c, w + [m] + [m]));
    NothingMixed(c, After(c, ShortWrite(c)));
  }

  lemma ShortWriteIs(c: Config)
    ensures ShortWrite(c)
            == WorkerOnly(5 * c.mixahead) + [IoMoves(Write(1))] + [IoMoves(Write(1))] + [IoMoves(Write(1))]
                + [IoMoves(Write(1))]
  {
  }

  // The first two steps of the write take the first prepared buffer.
  lemma EmptyTaken(c: Config, s: State)
    requires MixedAhead(c, s, c.mixahead)
    ensures s.io.Idle? && |s.prepared| == c.mixahead && s.finishedInitialMix
    ensures var s' := Next(c, Next(c, s, IoMoves(Write(1))), IoMoves(Write(1)));
            s'.io == Copying(1, 0) && |s'.prepared| == c.mixahead - 1 && s'.returned == []
  {
    assert Buffers(c.mixahead)[c.mixahead..] == [];
  }

  // The next two give it back.
  lemma EmptyGivenBack(c: Config, s: State)
    requires Inv(c, s) && c.frames == 0 && s.io == Copying(1, 0) && s.returned == []
    ensures var s' := Next(c, Next(c, s, IoMoves(Write(1))), IoMoves(Write(1)));
            && EndsShort(c, s', Write(1)) && !FoundNothing(s') && Written(s') == 0
            && s'.prepared == s.prepared && |s'.returned| == 1
  {
    hide Inv, Copy;
    CurrentIs(c, s, 1, 0);
    CopyCounts(c, s, 1, 0);
    CopyMoves(c, s, 1, 0);
  }

  // A copy leaves the queues alone.
  lemma CopyMoves(c: Config, s: State, count: nat, total: nat)
    ensures Copy(c, s, count, total).returned == s.returned && Copy(c, s, count, total).prepared == s.prepared
  {
    hide Prefix, Block;
  }

  lemma NothingMixed(c: Config, s: State)
    requires Calls(c, s) && c.frames == 0
    ensures s.delivered == []
  {
  }

  /**
   The exact condition: short writes are always underruns if and only if a block has at least one
   frame.
   */
  lemma OnlyUnderrunsAreShortIff(c: Config)
    ensures OnlyUnderrunsAreShort(c) <==> c.frames > 0
  {
    if c.frames > 0 {
      forall moves: seq<Move>, call: Call | EndsShort(c, After(c, moves), call)
        ensures FoundNothing(After(c, moves))
      {
        AfterInv(c, moves);
        ShortOnlyOnUnderrun(c, After(c, moves), call);
      }
    } else {
      EmptyBlockEndsShort(c);
    }
    hide After, Inv, Calls, IoNext;
  }

  // Steps of its own a write still takes at most.
  function WriteLeft(s: State): nat {
    match s.io
    case Helping(count, _) => 4 * count + 4
    case Copying(count, _) => 4 * count + 3
    case Releasing(_, count, _, wrote) => 4 * count + (if wrote > 0 then 6 else 2)
    case Signalling(count, _, wrote) => 4 * count + (if wrote > 0 then 5 else 1)
    case _ => 0
  }

  /** A write is never blocked and ends: each of its steps brings the end closer, whatever the worker does. */
  lemma WriteEnds(c: Config, s: State, call: Call)
    requires Inv(c, s) && InWrite(s)
    ensures WriteLeft(IoNext(c, s, call)) < WriteLeft(s)
    ensures WorkerNext(c, s).io == s.io
  {
    hide Inv, Copy, Block, Prefix;
    SpinsSucceed(c, s);
    if s.io.Copying? {
      CurrentIs(c, s, s.io.count, s.io.total);
      CopyCounts(c, s, s.io.count, s.io.total);
    }
  }

  // A whole write: begun by move i, in progress until just before state j.
  ghost predicate IsWrite(c: Config, run: seq<State>, moves: seq<Move>, i: nat, j: nat, n: nat) {
    && IsRun(c, run, moves) && i + 1 < j < |run|
    && run[i].io.Idle? && moves[i] == IoMoves(Write(n))
    && (forall k :: i < k < j ==> InWrite(run[k]))
    && run[j].io.Idle?
  }

  lemma {:induction false} WriteSoFar(c: Config, run: seq<State>, moves: seq<Move>, i: nat, j: nat, n: nat, k: nat)
    requires IsWrite(c, run, moves, i, j, n) && i < k < j
    ensures |run[k].delivered| - Written(run[k]) == |run[i].delivered|
    ensures Written(run[k]) + Wanted(run[k]) == n
    decreases k
  {
    hide WorkerNext, IoNext, Inv, Calls;
    if k == i + 1 {
      assert run[i + 1] == Next(c, run[i], moves[i]);
      Begun(c, run[i], n);
    } else {
      WriteSoFar(c, run, moves, i, j, n, k - 1);
      RunInv(c, run, moves, k - 1);
      assert run[k - 1 + 1] == Next(c, run[k - 1], moves[k - 1]);
      match moves[k - 1]
      case WorkerMoves => WorkerLeavesWrite(c, run[k - 1]);
      case IoMoves(call) => WriteCounts(c, run[k - 1], call);
    }
  }

  lemma Begun(c: Config, s: State, n: nat)
    requires s.io.Idle?
    ensures IoNext(c, s, Write(n)) == s.(io := Helping(n, 0))
  {
  }

  lemma WorkerLeavesWrite(c: Config, s: State)
    ensures WorkerNext(c, s).io == s.io && WorkerNext(c, s).delivered == s.delivered
  {
    hide Block;
  }

  /**
   A whole write, with the worker moving in between as it likes: the total it returns is exactly
   what it has added to the frames delivered, and no more than it was asked for.
   */
  lemma WriteReturnsDelivered(c: Config, run: seq<State>, moves: seq<Move>, i: nat, j: nat, n: nat)
    requires IsWrite(c, run, moves, i, j, n)
    ensures Written(run[j - 1]) == |run[j].delivered| - |run[i].delivered| <= n
    ensures Wanted(run[j - 1]) > 0 && c.frames > 0 ==> FoundNothing(run[j - 1])
  {
    hide WorkerNext, IoNext, Inv, Calls;
    WriteSoFar(c, run, moves, i, j, n, j - 1);
    RunInv(c, run, moves, j - 1);
    assert run[j - 1 + 1] == Next(c, run[j - 1], moves[j - 1]);
    match moves[j - 1]
    case WorkerMoves => WorkerLeavesWrite(c, run[j - 1]);
    case IoMoves(call) =>
      WriteCounts(c, run[j - 1], call);
      if Wanted(run[j - 1]) > 0 && c.frames > 0 { ShortOnlyOnUnderrun(c, run[j - 1], call); }
  }

  // Buffers the worker has taken for the initial mix.
  function TakenForMix(s: State): nat {
    s.mixed + (if s.worker.Mixing? || s.worker.Pushing? || s.worker.Counting? then 1 else 0)
  }

  // Until the initial mix is finished there is a permit for every buffer it has not had yet.
  ghost predicate MixGoesOn(c: Config, s: State) {
    !s.finishedInitialMix && !s.worker.Done? ==>
      && s.mixed < c.mixahead
      && s.permits + Claimed(s) + TakenForMix(s) >= c.mixahead
  }

  lemma WorkerKeepsMix(c: Config, s: State)
    requires MixGoesOn(c, s) && (s.worker.Popping? ==> s.returned != [])
    ensures MixGoesOn(c, WorkerNext(c, s))
  {
    hide Block;
  }

  lemma IoKeepsMix(c: Config, s: State, call: Call)
    requires MixGoesOn(c, s)
    ensures MixGoesOn(c, IoNext(c, s, call))
  {
    IoLeavesMix(c, s, call);
    hide IoNext;
  }

  lemma IoLeavesMix(c: Config, s: State, call: Call)
    ensures var s' := IoNext(c, s, call);
            && s'.worker == s.worker && s'.mixed == s.mixed && s'.finishedInitialMix == s.finishedInitialMix
            && s'.permits >= s.permits
  {
    hide Block, Prefix, WillWrite;
  }

  lemma {:induction false} RunMixes(c: Config, run: seq<State>, moves: seq<Move>, i: nat)
    requires IsRun(c, run, moves) && i < |run|
    ensures MixGoesOn(c, run[i])
  {
    hide WorkerNext, IoNext, Inv, MixGoesOn;
    if i == 0 {
      StartMixes(c);
    } else {
      RunMixes(c, run, moves, i - 1);
      RunInv(c, run, moves, i - 1);
      SpinsSucceed(c, run[i - 1]);
      assert run[i - 1 + 1] == Next(c, run[i - 1], moves[i - 1]);
      match moves[i - 1]
      case WorkerMoves => WorkerKeepsMix(c, run[i - 1]);
      case IoMoves(call) => IoKeepsMix(c, run[i - 1], call);
    }
  }

  lemma StartMixes(c: Config)
    ensures MixGoesOn(c, Start(c))
  {
  }

  // Steps of the worker to the end of the initial mix.
  function ToInitialMix(c: Config, s: State): int {
    if s.finishedInitialMix then 0
    else
      5 * (c.mixahead - s.mixed)
      - match s.worker
        case Waiting => 0
        case Popping => 1
        case Mixing(_) => 2
        case Pushing(_) => 3
        case Counting => 4
        case Done => 0
  }

  /**
   awaitInitialMix returns whatever the I/O thread does meanwhile: until the initial mix is
   finished or the worker has been stopped, the worker is not blocked, each of its steps brings
   the end closer, and no other step moves it away.
   */
  lemma InitialMixFinishes(c: Config, run: seq<State>, moves: seq<Move>, i: nat, call: Call)
    requires IsRun(c, run, moves) && i < |run| && !run[i].finishedInitialMix && !run[i].worker.Done?
    ensures 0 < ToInitialMix(c, run[i]) && !WorkerBlocked(run[i])
    ensures WorkerNext(c, run[i]).worker.Done? || ToInitialMix(c, WorkerNext(c, run[i])) < ToInitialMix(c, run[i])
    ensures ToInitialMix(c, IoNext(c, run[i], call)) == ToInitialMix(c, run[i])
  {
    hide IoNext, WorkerNext, Inv, Calls, IsRun, MixGoesOn, WorkerBlocked;
    RunMixes(c, run, moves, i);
    RunInv(c, run, moves, i);
    IoLeavesMix(c, run[i], call);
    MixMovesCloser(c, run[i]);
  }

  lemma MixMovesCloser(c: Config, s: State)
    requires Inv(c, s) && MixGoesOn(c, s) && !s.finishedInitialMix && !s.worker.Done?
    ensures 0 < ToInitialMix(c, s) && !WorkerBlocked(s)
    ensures WorkerNext(c, s).worker.Done? || ToInitialMix(c, WorkerNext(c, s)) < ToInitialMix(c, s)
  {
    hide Inv, Mix;
    SpinsSucceed(c, s);
    if s.worker.Mixing? { MixMovesOn(c, s); }
  }

  lemma MixMovesOn(c: Config, s: State)
    requires Inv(c, s) && !s.worker.Done? && s.worker.Mixing?
    ensures Mix(c, s, s.worker.cmd).worker == Pushing(s.worker.cmd)
    ensures Mix(c, s, s.worker.cmd).mixed == s.mixed
            && Mix(c, s, s.worker.cmd).finishedInitialMix == s.finishedInitialMix
  {
    FreeingDone(c, s);
    InvIs(c, s);
    HandApart(c, s);
    hide Conserved, Inv, Prefix, Block;
  }

  predicate InDestructor(s: State) {
    s.io.StopPushing? || Stopping(s)
  }

  // The destructor's own steps from here on, the waiting apart.
  function DestructorLeft(s: State): nat {
    match s.io
    case StopPushing => 7 + |s.returned| + |s.prepared|
    case StopSignalling => 5 + |s.returned| + |s.prepared|
    case Joining => 4 + |s.returned| + |s.prepared|
    case FreeingReturned => 3 + |s.returned| + |s.prepared|
    case FreeingPrepared => 2 + |s.prepared|
    case _ => 0
  }

  /**
   The destructor goes through: it begins by pushing the stop, waits only for room in the queue and
   for the worker to be done, and every other step of it brings it closer to its end.
   */
  lemma DestructorGoesThrough(c: Config, s: State, call: Call)
    requires Inv(c, s)
    ensures s.io.Idle? ==> IoNext(c, s, Destroy).io.StopPushing?
    ensures InDestructor(s) && !s.io.Gone? ==>
              && InDestructor(IoNext(c, s, call))
              && if (s.io.StopPushing? && |s.returned| >= c.mixahead) || (s.io.Joining? && !s.worker.Done?)
                 then IoNext(c, s, call) == s
                 else DestructorLeft(IoNext(c, s, call)) < DestructorLeft(s)
  {
    hide Inv, Copy, Prefix, Block;
  }
}
