/**
 ThreadPool: one submitter, `thread_count` workers each with its own queue, and barriers made of
 one job for every queue, as a transition system. The queues are the first-in first-out queues
 that `ThreadsafeQueue` implements.
 */
module ThreadPool {
  import opened Arithmetic

  // A submitted job knows how many barriers were submitted before it. A barrier job belongs to
  // barrier b. Poison ends a worker.
  datatype Job = Plain(id: nat, epoch: nat) | Barrier(b: nat) | Poison

  datatype Phase =
    | Ready       // between jobs
    | Running     // inside a plain job
    | Arriving    // in a barrier job, about to add to the counter
    | Blocked     // waiting on the barrier's future
    | Releasing   // arrived last, about to set the promise
    | Deleting    // about to delete promise and counter
    | Dead        // poisoned

  // The queue, oldest first; what is left of the dequeued batch, the current job included; and
  // the jobs finished so far, in order.
  datatype Worker = Worker(queue: seq<Job>, batch: seq<Job>, done: seq<Job>, phase: Phase)

  // A barrier's shared counter, whether its promise is set, whether both are deleted, and who
  // arrived last.
  datatype Gate = Gate(counter: nat, released: bool, deleted: bool, last: nat)

  datatype Submitter =
    | Idle
    | Barriering(start: nat, left: nat)    // in submitBarrier, with `left` jobs to go
    | Broadcasting(id: nat, next: nat)     // in submitJobToAllThreads
    | Stopping(next: nat)                  // in stop, poisoning queue after queue
    | Stopped

  datatype State = State(workers: seq<Worker>, pointer: nat, gates: seq<Gate>, submitter: Submitter)

  // The most jobs a worker takes at once.
  const BATCH: nat := 5

  function Start(n: pos): State {
    State(seq(n, _ => Worker([], [], [], Ready)), 0, [], Idle)
  }

  function Enqueue(s: State, w: nat, job: Job): State
    requires w < |s.workers|
  {
    s.(workers := s.workers[w := s.workers[w].(queue := s.workers[w].queue + [job])])
  }

  datatype Request = SubmitJob(id: nat) | SubmitToAll(id: nat) | SubmitBarrier | Stop

  // The submitter's next step; between requests it chooses one.
  function SubmitterNext(s: State, r: Request): State
    requires s.pointer < |s.workers|
  {
    var n := |s.workers|;
    match s.submitter
    case Idle =>
      (match r
       case SubmitJob(id) => Enqueue(s, s.pointer, Plain(id, |s.gates|)).(pointer := (s.pointer + 1) % n)
       case SubmitToAll(id) => s.(submitter := Broadcasting(id, 0))
       case SubmitBarrier => s.(gates := s.gates + [Gate(0, false, false, 0)], submitter := Barriering(s.pointer, n))
       case Stop => s.(submitter := Stopping(0)))
    case Barriering(start, left) =>
      if left == 0 || s.gates == [] then s.(submitter := Idle)
      else Enqueue(s, s.pointer, Barrier(|s.gates| - 1)).(pointer := (s.pointer + 1) % n,
                                                          submitter := Barriering(start, left - 1))
    case Broadcasting(id, next) =>
      if next >= n then s.(submitter := Idle)
      else Enqueue(s, next, Plain(id, |s.gates|)).(submitter := Broadcasting(id, next + 1))
    case Stopping(next) =>
      if next >= n then s.(submitter := Stopped)
      else Enqueue(s, next, Poison).(submitter := Stopping(next + 1))
    case Stopped => s
  }

  function Finish(x: Worker): Worker
    requires x.batch != []
  {
    x.(batch := x.batch[1..], done := x.done + [x.batch[0]], phase := Ready)
  }

  function Put(s: State, w: nat, x: Worker): State
    requires w < |s.workers|
  {
    s.(workers := s.workers[w := x])
  }

  // dequeueRange, once there is something.
  function Fetch(x: Worker): Worker {
    var got := Min(BATCH, |x.queue|);
    x.(batch := x.queue[..got], queue := x.queue[got..])
  }

  function Begin(x: Worker): Worker
    requires x.batch != []
  {
    match x.batch[0]
    case Plain(_, _) => x.(phase := Running)
    case Barrier(_) => x.(phase := Arriving)
    case Poison => x.(phase := Dead)
  }

  // The barrier of the current job.
  function At(x: Worker): nat {
    if x.batch != [] && x.batch[0].Barrier? then x.batch[0].b else 0
  }

  // fetch_add on the counter: the last to arrive goes on, the others wait.
  function Arrive(s: State, w: nat): State
    requires w < |s.workers| && At(s.workers[w]) < |s.gates|
  {
    var x := s.workers[w];
    var g := s.gates[At(x)];
    if g.counter == |s.workers| - 1
    then Put(s, w, x.(phase := Releasing)).(gates := s.gates[At(x) := g.(counter := g.counter + 1, last := w)])
    else Put(s, w, x.(phase := Blocked)).(gates := s.gates[At(x) := g.(counter := g.counter + 1)])
  }

  // A worker that has nothing to do, or must wait, cannot move.
  predicate Enabled(s: State, w: nat)
    requires w < |s.workers|
  {
    var x := s.workers[w];
    match x.phase
    case Ready => x.batch != [] || x.queue != []
    case Running => x.batch != []
    case Arriving => x.batch != [] && At(x) < |s.gates|
    case Blocked => x.batch != [] && At(x) < |s.gates| && s.gates[At(x)].released
    case Releasing => x.batch != [] && At(x) < |s.gates|
    case Deleting => x.batch != [] && At(x) < |s.gates|
    case Dead => false
  }

  function WorkerNext(s: State, w: nat): State
    requires w < |s.workers| && Enabled(s, w)
  {
    var x := s.workers[w];
    match x.phase
    case Ready => if x.batch == [] then Put(s, w, Fetch(x)) else Put(s, w, Begin(x))
    case Running => Put(s, w, Finish(x))
    case Arriving => Arrive(s, w)
    case Blocked => Put(s, w, Finish(x))
    case Releasing => Put(s, w, x.(phase := Deleting)).(gates := s.gates[At(x) := s.gates[At(x)].(released := true)])
    case Deleting => Put(s, w, Finish(x)).(gates := s.gates[At(x) := s.gates[At(x)].(deleted := true)])
    case Dead => s
  }

  // Everything ever submitted to a worker, in order.
  function Log(x: Worker): seq<Job> {
    x.done + x.batch + x.queue
  }

  // The number of barrier jobs in a sequence.
  function Bars(q: seq<Job>): nat {
    if q == [] then 0 else Bars(q[..|q| - 1]) + (if q[|q| - 1].Barrier? then 1 else 0)
  }

  // The barriers a worker has arrived at.
  function Passes(x: Worker): nat {
    Bars(x.done) + (if x.phase.Blocked? || x.phase.Releasing? || x.phase.Deleting? then 1 else 0)
  }

  predicate Arrived(x: Worker, b: nat) {
    Passes(x) > b
  }

  // The workers that have arrived at barrier b.
  function Arrivals(ws: seq<Worker>, b: nat): nat {
    if ws == [] then 0 else Arrivals(ws[..|ws| - 1], b) + (if Passes(ws[|ws| - 1]) > b then 1 else 0)
  }

  // Every job stands in the log where its number of barriers says; poison can only be last.
  ghost predicate Tagged(q: seq<Job>) {
    forall i :: 0 <= i < |q| ==> TaggedAt(q, i)
  }

  ghost predicate TaggedAt(q: seq<Job>, i: int)
    requires 0 <= i < |q|
  {
    match q[i]
    case Plain(_, epoch) => epoch == Bars(q[..i])
    case Barrier(b) => b == Bars(q[..i])
    case Poison => i == |q| - 1
  }

  // submitBarrier has already put its job into queue w: round robin from where it started.
  predicate Visited(n: pos, start: nat, left: nat, w: nat) {
    (w + n - start) % n < n - left
  }

  // How many barrier jobs queue w has been given.
  function Due(s: State, w: nat): int
    requires |s.workers| > 0
  {
    if s.submitter.Barriering? && !Visited(|s.workers|, s.submitter.start, s.submitter.left, w)
    then |s.gates| - 1
    else |s.gates|
  }

  predicate Poisoned(s: State, w: nat) {
    s.submitter.Stopped? || (s.submitter.Stopping? && w < s.submitter.next)
  }

  // The phase agrees with the current job.
  predicate PhaseOk(x: Worker) {
    match x.phase
    case Ready => true
    case Running => x.batch != [] && x.batch[0].Plain?
    case Dead => x.batch != [] && x.batch[0] == Poison
    case _ => x.batch != [] && x.batch[0].Barrier?
  }

  ghost predicate LogOk(s: State, w: nat)
    requires w < |s.workers|
  {
    && Tagged(Log(s.workers[w]))
    && Bars(Log(s.workers[w])) == Due(s, w)
    && (Poison in Log(s.workers[w]) <==> Poisoned(s, w))
    && PhaseOk(s.workers[w])
  }

  predicate Open(gates: seq<Gate>, b: nat) {
    b < |gates| && gates[b].released
  }

  // What a worker has passed has been released, and the one that releases arrived last.
  ghost predicate PassOk(gates: seq<Gate>, n: nat, x: Worker, w: nat) {
    && (forall b: nat :: b < Bars(x.done) ==> Open(gates, b))
    && (x.phase.Releasing? ==>
        At(x) < |gates| && gates[At(x)].counter == n && !gates[At(x)].released && gates[At(x)].last == w)
    && (x.phase.Deleting? ==>
        At(x) < |gates| && gates[At(x)].released && !gates[At(x)].deleted && gates[At(x)].last == w)
  }

  // The counter counts the arrivals; a full barrier is released, or its last worker is about to.
  ghost predicate GateOk(ws: seq<Worker>, g: Gate, b: nat) {
    && g.counter == Arrivals(ws, b)
    && (g.released ==> g.counter == |ws|)
    && (g.deleted ==> g.released)
    && (g.counter == |ws| && !g.released ==> g.last < |ws| && ws[g.last].phase.Releasing? && At(ws[g.last]) == b)
  }

  ghost predicate SubmitterOk(s: State) {
    && |s.workers| > 0 && s.pointer < |s.workers|
    && (s.submitter.Barriering? ==>
          && s.gates != [] && s.submitter.start < |s.workers| && s.submitter.left <= |s.workers|
          && s.pointer == (s.submitter.start + |s.workers| - s.submitter.left) % |s.workers|)
  }

  ghost predicate Inv(s: State) {
    && SubmitterOk(s)
    && (forall w :: 0 <= w < |s.workers| ==> LogOk(s, w))
    && (forall w :: 0 <= w < |s.workers| ==> PassOk(s.gates, |s.workers|, s.workers[w], w))
    && (forall b :: 0 <= b < |s.gates| ==> GateOk(s.workers, s.gates[b], b))
  }

  lemma BarsPush(q: seq<Job>, j: Job)
    ensures Bars(q + [j]) == Bars(q) + (if j.Barrier? then 1 else 0)
  {
    assert (q + [j])[..|q|] == q;
  }

  lemma {:induction false} BarsMono(q: seq<Job>, i: nat, j: nat)
    requires i <= j <= |q|
    ensures Bars(q[..i]) <= Bars(q[..j])
  {
    if i < j {
      BarsMono(q, i, j - 1);
      assert q[..j][..j - 1] == q[..j - 1];
    }
  }

  lemma {:induction false} ArrivalsBound(ws: seq<Worker>, b: nat)
    ensures Arrivals(ws, b) <= |ws|
    ensures Arrivals(ws, b) == |ws| <==> forall w :: 0 <= w < |ws| ==> Passes(ws[w]) > b
  {
    if ws != [] {
      ArrivalsBound(ws[..|ws| - 1], b);
      assert ws == ws[..|ws| - 1] + [ws[|ws| - 1]];
    }
  }

  lemma {:induction false} ArrivalsUpdate(ws: seq<Worker>, w: nat, x: Worker, b: nat)
    requires w < |ws|
    ensures Arrivals(ws[w := x], b) == Arrivals(ws, b) - (if Passes(ws[w]) > b then 1 else 0)
            + (if Passes(x) > b then 1 else 0)
  {
    var n := |ws| - 1;
    if w == n {
      assert ws[w := x][..n] == ws[..n];
    } else {
      assert ws[w := x][..n] == ws[..n][w := x];
      ArrivalsUpdate(ws[..n], w, x, b);
    }
  }

  lemma {:induction false} ArrivalsNone(ws: seq<Worker>, b: nat)
    requires forall w :: 0 <= w < |ws| ==> Passes(ws[w]) <= b
    ensures Arrivals(ws, b) == 0
  {
    if ws != [] { ArrivalsNone(ws[..|ws| - 1], b); }
  }

  // Step k of n round-robin submissions from `start` on goes to the one queue not visited that is k after it.
  lemma RoundRobin(n: pos, start: nat, k: nat, w: nat)
    requires start < n && k < n && w < n
    ensures (start + k) % n == w <==> (w + n - start) % n == k
  {
    var q := if start + k < n then 0 else 1;
    DivModUnique(start + k, q, start + k - q * n, n);
    var r := if w >= start then 1 else 0;
    DivModUnique(w + n - start, r, w + n - start - r * n, n);
  }

  lemma NextPointer(n: pos, start: nat, k: nat)
    requires start < n && k < n
    ensures ((start + k) % n + 1) % n == (start + k + 1) % n
  {
    if start + k < n {
      DivModUnique(start + k, 0, start + k, n);
    } else {
      DivModUnique(start + k, 1, start + k - n, n);
      DivModUnique(start + k + 1, 1, start + k + 1 - n, n);
      DivModUnique(start + k + 1 - n, 0, start + k + 1 - n, n);
    }
  }

  lemma LogsAre(s: State, w: nat)
    requires Inv(s) && w < |s.workers|
    ensures LogOk(s, w) && PassOk(s.gates, |s.workers|, s.workers[w], w)
  {
  }

  lemma GatesAre(s: State, b: nat)
    requires Inv(s) && b < |s.gates|
    ensures GateOk(s.workers, s.gates[b], b)
  {
  }

  // The tag of the current job is the number of barriers finished.
  lemma Current(x: Worker)
    requires Tagged(Log(x)) && x.batch != []
    ensures x.batch[0].Plain? ==> x.batch[0].epoch == Bars(x.done)
    ensures x.batch[0].Barrier? ==> x.batch[0].b == At(x) == Bars(x.done) < Bars(Log(x))
    ensures x.batch[0] == Poison ==> |x.batch| == 1 && x.queue == []
    ensures Bars(x.done + [x.batch[0]]) == Bars(x.done) + (if x.batch[0].Barrier? then 1 else 0) <= Bars(Log(x))
  {
    var i := |x.done|;
    assert TaggedAt(Log(x), i);
    assert Log(x)[..i] == x.done && Log(x)[i] == x.batch[0];
    assert Log(x)[..i + 1] == x.done + [x.batch[0]];
    assert Log(x)[..|Log(x)|] == Log(x);
    BarsMono(Log(x), i + 1, |Log(x)|);
    BarsPush(x.done, x.batch[0]);
    hide Bars, Tagged;
  }

  lemma DonePart(x: Worker)
    ensures Bars(x.done) <= Bars(Log(x))
  {
    assert Log(x)[..|x.done|] == x.done && Log(x)[..|Log(x)|] == Log(x);
    BarsMono(Log(x), |x.done|, |Log(x)|);
    hide Bars;
  }

  // A worker never arrives at more barriers than it has been given.
  lemma PassesBound(s: State, w: nat)
    requires Inv(s) && w < |s.workers|
    ensures Passes(s.workers[w]) <= Bars(Log(s.workers[w])) <= |s.gates|
  {
    LogsAre(s, w);
    DonePart(s.workers[w]);
    if s.workers[w].batch != [] { Current(s.workers[w]); }
    hide Inv, Tagged, Bars, Log, PassOk;
  }

  // One worker changes, its log does not.
  lemma SameLog(s: State, s': State, w: nat, x: Worker)
    requires Inv(s) && w < |s.workers| && s'.workers == s.workers[w := x]
    requires s'.submitter == s.submitter && |s'.gates| == |s.gates|
    requires Log(x) == Log(s.workers[w]) && PhaseOk(x)
    ensures forall k :: 0 <= k < |s'.workers| ==> LogOk(s', k)
  {
    hide Log, Tagged, Bars, Inv;
    forall k | 0 <= k < |s'.workers|
      ensures LogOk(s', k)
    {
      LogsAre(s, k);
      hide PassOk;
    }
  }

  lemma PassStill(gates: seq<Gate>, n: nat, x: Worker, x': Worker, w: nat)
    requires PassOk(gates, n, x, w) && !x'.phase.Releasing? && !x'.phase.Deleting?
    requires || Bars(x'.done) == Bars(x.done)
             || (Bars(x'.done) == Bars(x.done) + 1 <= |gates| && gates[Bars(x'.done) - 1].released)
    ensures PassOk(gates, n, x', w)
  {
    hide Bars;
    forall b: nat | b < Bars(x'.done)
      ensures Open(gates, b)
    {
      if b == Bars(x.done) { assert b == Bars(x'.done) - 1; }
    }
  }

  // A step that changes no barrier and arrives at none.
  lemma QuietKeeps(s: State, w: nat, x: Worker)
    requires Inv(s) && w < |s.workers|
    requires Log(x) == Log(s.workers[w]) && PhaseOk(x) && Passes(x) == Passes(s.workers[w])
    requires !s.workers[w].phase.Releasing? && !s.workers[w].phase.Deleting? && !x.phase.Releasing?
             && !x.phase.Deleting?
    requires || Bars(x.done) == Bars(s.workers[w].done)
             || (Bars(x.done) == Bars(s.workers[w].done) + 1 <= |s.gates| && s.gates[Bars(x.done) - 1].released)
    ensures Inv(Put(s, w, x))
  {
    var s' := Put(s, w, x);
    SameLog(s, s', w, x);
    hide Inv, Log, Tagged, Bars, Passes, LogOk;
    forall k | 0 <= k < |s'.workers|
      ensures PassOk(s'.gates, |s'.workers|, s'.workers[k], k)
    {
      LogsAre(s, k);
      if k == w { PassStill(s.gates, |s.workers|, s.workers[w], x, w); }
    }
    hide PassOk;
    forall b | 0 <= b < |s'.gates|
      ensures GateOk(s'.workers, s'.gates[b], b)
    {
      GatesAre(s, b);
      ArrivalsUpdate(s.workers, w, x, b);
    }
    hide GateOk;
    IsInv(s, s');
  }

  lemma IsInv(s: State, s': State)
    requires Inv(s) && |s'.workers| == |s.workers| && s'.pointer == s.pointer && s'.submitter == s.submitter
             && |s'.gates| == |s.gates|
    requires forall w :: 0 <= w < |s'.workers| ==> LogOk(s', w)
    requires forall w :: 0 <= w < |s'.workers| ==> PassOk(s'.gates, |s'.workers|, s'.workers[w], w)
    requires forall b :: 0 <= b < |s'.gates| ==> GateOk(s'.workers, s'.gates[b], b)
    ensures Inv(s')
  {
    hide LogOk, PassOk, GateOk;
  }

  lemma FetchKeeps(s: State, w: nat)
    requires Inv(s) && w < |s.workers| && s.workers[w].phase.Ready? && s.workers[w].batch == []
    ensures Inv(Put(s, w, Fetch(s.workers[w])))
  {
    hide Inv, Bars;
    var x := s.workers[w];
    assert Log(Fetch(x)) == Log(x);
    QuietKeeps(s, w, Fetch(x));
  }

  lemma BeginKeeps(s: State, w: nat)
    requires Inv(s) && w < |s.workers| && s.workers[w].phase.Ready? && s.workers[w].batch != []
    ensures Inv(Put(s, w, Begin(s.workers[w])))
  {
    hide Inv, Bars;
    QuietKeeps(s, w, Begin(s.workers[w]));
  }

  lemma FinishLog(x: Worker)
    requires x.batch != []
    ensures Log(Finish(x)) == Log(x)
  {
    assert x.batch == [x.batch[0]] + x.batch[1..];
  }

  lemma FinishKeeps(s: State, w: nat)
    requires Inv(s) && w < |s.workers| && Enabled(s, w) && (s.workers[w].phase.Running? || s.workers[w].phase.Blocked?)
    ensures Inv(Put(s, w, Finish(s.workers[w])))
  {
    hide Inv, Bars, Log, Tagged;
    var x := s.workers[w];
    LogsAre(s, w);
    Current(x);
    FinishLog(x);
    hide PassOk, LogOk;
    QuietKeeps(s, w, Finish(x));
  }

  // When a barrier is not full, or this worker arrived last, no other worker is releasing it.
  lemma OthersPass(gates: seq<Gate>, n: nat, y: Worker, k: nat, w: nat, b: nat, g: Gate)
    requires PassOk(gates, n, y, k) && k != w && b < |gates|
    requires gates[b].counter < n || gates[b].last == w
    requires gates[b].counter < n ==> !gates[b].released
    requires gates[b].released ==> g.released
    ensures PassOk(gates[b := g], n, y, k)
  {
    hide Bars;
    var gates' := gates[b := g];
    forall c: nat | c < Bars(y.done)
      ensures Open(gates', c)
    {
      assert Open(gates, c);
    }
  }

  lemma OtherGates(ws: seq<Worker>, w: nat, x: Worker, c: nat, g: Gate)
    requires w < |ws| && GateOk(ws, g, c)
    requires Arrived(x, c) == Arrived(ws[w], c)
    requires ws[w].phase.Releasing? ==> At(ws[w]) != c
    ensures GateOk(ws[w := x], g, c)
  {
    ArrivalsUpdate(ws, w, x, c);
    hide Arrivals, Passes;
  }

  // A step of worker w at barrier b.
  lemma GateKeeps(s: State, w: nat, x: Worker, b: nat, g: Gate)
    requires Inv(s) && w < |s.workers| && b < |s.gates|
    requires Log(x) == Log(s.workers[w]) && PhaseOk(x)
    requires s.workers[w].phase.Releasing? ==> At(s.workers[w]) == b
    requires s.gates[b].counter < |s.workers| || s.gates[b].last == w
    requires s.gates[b].counter < |s.workers| ==> !s.gates[b].released
    requires s.gates[b].released ==> g.released
    requires PassOk(s.gates[b := g], |s.workers|, x, w) && GateOk(s.workers[w := x], g, b)
    requires forall c: nat :: c != b ==> Arrived(x, c) == Arrived(s.workers[w], c)
    ensures Inv(Put(s, w, x).(gates := s.gates[b := g]))
  {
    var s' := Put(s, w, x).(gates := s.gates[b := g]);
    SameLog(s, s', w, x);
    hide Inv, Log, Tagged, Bars, Passes, Arrived, LogOk, PassOk, GateOk, At;
    forall k | 0 <= k < |s'.workers|
      ensures PassOk(s'.gates, |s'.workers|, s'.workers[k], k)
    {
      LogsAre(s, k);
      if k != w { OthersPass(s.gates, |s.workers|, s.workers[k], k, w, b, g); }
    }
    forall c | 0 <= c < |s'.gates|
      ensures GateOk(s'.workers, s'.gates[c], c)
    {
      GatesAre(s, c);
      if c != b { OtherGates(s.workers, w, x, c, s.gates[c]); }
    }
    IsInv(s, s');
  }

  // The barrier of the current job is the next one the worker has not finished.
  lemma AtNext(s: State, w: nat)
    requires Inv(s) && w < |s.workers| && s.workers[w].batch != [] && s.workers[w].batch[0].Barrier?
    ensures At(s.workers[w]) == Bars(s.workers[w].done) < |s.gates|
    ensures Bars(Finish(s.workers[w]).done) == At(s.workers[w]) + 1
    ensures Log(Finish(s.workers[w])) == Log(s.workers[w])
  {
    LogsAre(s, w);
    Current(s.workers[w]);
    FinishLog(s.workers[w]);
    hide Inv, Tagged, Bars, PassOk, Log;
  }

  // A worker about to arrive has not been counted yet, so the barrier is neither full nor open.
  lemma NotFull(s: State, w: nat, b: nat)
    requires Inv(s) && w < |s.workers| && b < |s.gates| && Passes(s.workers[w]) <= b
    ensures s.gates[b].counter == Arrivals(s.workers, b) < |s.workers| && !s.gates[b].released && !s.gates[b].deleted
  {
    GatesAre(s, b);
    ArrivalsBound(s.workers, b);
    hide Inv, Arrivals, Passes;
  }

  lemma ArriveKeeps(s: State, w: nat)
    requires Inv(s) && w < |s.workers| && Enabled(s, w) && s.workers[w].phase.Arriving?
    ensures Inv(Arrive(s, w))
  {
    hide Inv, Bars, Log, Tagged, PassOk;
    var x := s.workers[w];
    var b := At(x);
    LogsAre(s, w);
    AtNext(s, w);
    NotFull(s, w, b);
    var full := s.gates[b].counter == |s.workers| - 1;
    var x' := x.(phase := if full then Releasing else Blocked);
    var g := s.gates[b].(counter := s.gates[b].counter + 1, last := if full then w else s.gates[b].last);
    assert Log(x') == Log(x) by { LogSame(x, x'); }
    ArrivesPass(s.gates, |s.workers|, x, x', w, b, g);
    ArrivalsUpdate(s.workers, w, x', b);
    assert GateOk(s.workers[w := x'], g, b);
    hide GateOk, LogOk, Arrivals;
    GateKeeps(s, w, x', b, g);
  }

  lemma LogSame(x: Worker, x': Worker)
    requires x'.done == x.done && x'.batch == x.batch && x'.queue == x.queue
    ensures Log(x') == Log(x)
  {
  }

  lemma ArrivesPass(gates: seq<Gate>, n: nat, x: Worker, x': Worker, w: nat, b: nat, g: Gate)
    requires PassOk(gates, n, x, w) && b < |gates| && At(x') == b && x'.done == x.done
    requires g.released == gates[b].released && !g.released
    requires x'.phase.Blocked? || (x'.phase.Releasing? && g.counter == n && g.last == w)
    ensures PassOk(gates[b := g], n, x', w)
  {
    hide Bars;
    var gates' := gates[b := g];
    forall c: nat | c < Bars(x'.done)
      ensures Open(gates', c)
    {
      assert Open(gates, c);
    }
  }

  lemma ReleasePass(gates: seq<Gate>, n: nat, x: Worker, x': Worker, w: nat, b: nat, g: Gate)
    requires PassOk(gates, n, x, w) && b < |gates| && g.released
    requires Bars(x'.done) == Bars(x.done) || (Bars(x'.done) == Bars(x.done) + 1 && Bars(x.done) == b)
    requires x'.phase.Ready? || (x'.phase.Deleting? && At(x') == b && !g.deleted && g.last == w)
    ensures PassOk(gates[b := g], n, x', w)
  {
    hide Bars;
    var gates' := gates[b := g];
    forall c: nat | c < Bars(x'.done)
      ensures Open(gates', c)
    {
      if c != b { assert Open(gates, c); }
    }
  }

  lemma ReleaseKeeps(s: State, w: nat)
    requires Inv(s) && w < |s.workers| && Enabled(s, w) && s.workers[w].phase.Releasing?
    ensures Inv(WorkerNext(s, w))
  {
    hide Inv, Bars, Log, Tagged;
    var x := s.workers[w];
    var b := At(x);
    LogsAre(s, w);
    GatesAre(s, b);
    var x' := x.(phase := Deleting);
    var g := s.gates[b].(released := true);
    LogSame(x, x');
    ReleasePass(s.gates, |s.workers|, x, x', w, b, g);
    ArrivalsUpdate(s.workers, w, x', b);
    assert GateOk(s.workers[w := x'], g, b);
    hide GateOk, LogOk, Arrivals;
    GateKeeps(s, w, x', b, g);
  }

  lemma DeleteKeeps(s: State, w: nat)
    requires Inv(s) && w < |s.workers| && Enabled(s, w) && s.workers[w].phase.Deleting?
    ensures Inv(WorkerNext(s, w))
  {
    hide Inv, Bars, Log, Tagged;
    var x := s.workers[w];
    var b := At(x);
    LogsAre(s, w);
    AtNext(s, w);
    GatesAre(s, b);
    var x' := Finish(x);
    var g := s.gates[b].(deleted := true);
    ReleasePass(s.gates, |s.workers|, x, x', w, b, g);
    ArrivalsUpdate(s.workers, w, x', b);
    assert GateOk(s.workers[w := x'], g, b);
    hide GateOk, LogOk, Arrivals;
    GateKeeps(s, w, x', b, g);
  }

  lemma WorkerKeeps(s: State, w: nat)
    requires Inv(s) && w < |s.workers| && Enabled(s, w)
    ensures Inv(WorkerNext(s, w))
  {
    hide Inv, Fetch, Begin, Finish, Arrive;
    match s.workers[w].phase
    case Ready => if s.workers[w].batch == [] { FetchKeeps(s, w); } else { BeginKeeps(s, w); }
    case Running => FinishKeeps(s, w);
    case Arriving => ArriveKeeps(s, w);
    case Blocked => FinishKeeps(s, w);
    case Releasing => ReleaseKeeps(s, w);
    case Deleting => DeleteKeeps(s, w);
    case Dead =>
  }

  lemma StartInv(n: pos)
    ensures Inv(Start(n))
  {
    forall w | 0 <= w < n
      ensures LogOk(Start(n), w)
    {
      assert Log(Start(n).workers[w]) == [];
    }
  }

  // Putting a job at the end of a log keeps it tagged.
  lemma TaggedPush(q: seq<Job>, j: Job)
    requires Tagged(q) && Poison !in q
    requires match j case Plain(_, epoch) => epoch == Bars(q) case Barrier(b) => b == Bars(q) case Poison => true
    ensures Tagged(q + [j])
  {
    hide Bars;
    forall i | 0 <= i < |q + [j]|
      ensures TaggedAt(q + [j], i)
    {
      if i < |q| {
        assert (q + [j])[..i] == q[..i];
        assert TaggedAt(q, i);
      } else {
        assert (q + [j])[..i] == q;
      }
    }
  }

  // One more job in queue k.
  lemma EnqueueKeeps(s: State, k: nat, j: Job, s': State)
    requires Inv(s) && k < |s.workers| && SubmitterOk(s')
    requires s'.workers == Enqueue(s, k, j).workers && s'.gates == s.gates
    requires forall w: nat :: w < |s.workers| && w != k ==> Due(s', w) == Due(s, w) && Poisoned(s', w) == Poisoned(s, w)
    requires Due(s', k) == Due(s, k) + (if j.Barrier? then 1 else 0)
    requires !Poisoned(s, k) && (Poisoned(s', k) <==> j == Poison)
    requires match j case Plain(_, epoch) => epoch == Due(s, k) case Barrier(b) => b == Due(s, k) case Poison => true
    ensures Inv(s')
  {
    hide Inv, Due, Poisoned, SubmitterOk, Bars;
    forall w | 0 <= w < |s'.workers|
      ensures LogOk(s', w) && PassOk(s'.gates, |s'.workers|, s'.workers[w], w)
    {
      LogsAre(s, w);
      if w == k {
        var x := s.workers[k];
        assert Log(s'.workers[k]) == Log(x) + [j];
        TaggedPush(Log(x), j);
        BarsPush(Log(x), j);
        hide Log, Tagged;
      }
    }
    hide LogOk, PassOk;
    forall b | 0 <= b < |s'.gates|
      ensures GateOk(s'.workers, s'.gates[b], b)
    {
      GatesAre(s, b);
      ArrivalsUpdate(s.workers, k, s'.workers[k], b);
      hide Arrivals;
    }
    hide GateOk;
    MadeInv(s');
  }

  lemma MadeInv(s: State)
    requires SubmitterOk(s)
    requires forall w :: 0 <= w < |s.workers| ==> LogOk(s, w) && PassOk(s.gates, |s.workers|, s.workers[w], w)
    requires forall b :: 0 <= b < |s.gates| ==> GateOk(s.workers, s.gates[b], b)
    ensures Inv(s)
  {
    hide LogOk, PassOk, GateOk;
  }

  // A step that changes only what the submitter is at.
  lemma SubmitterOnly(s: State, s': State)
    requires Inv(s) && SubmitterOk(s') && s'.workers == s.workers && s'.gates == s.gates
    requires forall w: nat :: w < |s.workers| ==> Due(s', w) == Due(s, w) && Poisoned(s', w) == Poisoned(s, w)
    ensures Inv(s')
  {
    hide Inv, Due, Poisoned, SubmitterOk, Bars, Log, Tagged;
    forall w | 0 <= w < |s'.workers|
      ensures LogOk(s', w) && PassOk(s'.gates, |s'.workers|, s'.workers[w], w)
    {
      LogsAre(s, w);
    }
    forall b | 0 <= b < |s'.gates|
      ensures GateOk(s'.workers, s'.gates[b], b)
    {
      GatesAre(s, b);
    }
    MadeInv(s');
  }

  // submitBarrier begins: a new gate nobody has arrived at, and no queue visited yet.
  lemma BeginBarrierKeeps(s: State)
    requires Inv(s) && s.submitter.Idle?
    ensures Inv(SubmitterNext(s, SubmitBarrier))
  {
    var n: pos := |s.workers|;
    var s' := SubmitterNext(s, SubmitBarrier);
    assert SubmitterOk(s') by { DivModUnique(s.pointer, 0, s.pointer, n); }
    forall w | 0 <= w < n
      ensures LogOk(s', w) && PassOk(s'.gates, n, s'.workers[w], w) && Passes(s.workers[w]) <= |s.gates|
    {
      LogsAre(s, w);
      DivMod(w + n - s.pointer, n);
      hide Inv, Bars, Log, Tagged;
      PassesBound(s, w);
      MoreGates(s.gates, n, s.workers[w], w, Gate(0, false, false, 0));
      hide PassOk;
    }
    hide LogOk, PassOk, SubmitterOk, Passes;
    forall b | 0 <= b < |s'.gates|
      ensures GateOk(s'.workers, s'.gates[b], b)
    {
      if b < |s.gates| { GatesAre(s, b); } else { ArrivalsNone(s.workers, b); }
      hide Inv;
    }
    hide GateOk, Inv;
    MadeInv(s');
  }

  lemma MoreGates(gates: seq<Gate>, n: nat, x: Worker, w: nat, g: Gate)
    requires PassOk(gates, n, x, w)
    ensures PassOk(gates + [g], n, x, w)
  {
    hide Bars;
    var gates' := gates + [g];
    forall c: nat | c < Bars(x.done)
      ensures Open(gates', c)
    {
      assert Open(gates, c);
    }
  }

  // Round robin: each of the n jobs of a barrier goes to a queue that has not had one.
  lemma BarrierDue(s: State, r: Request, w: nat)
    requires SubmitterOk(s) && s.submitter.Barriering? && s.submitter.left > 0 && w < |s.workers|
    ensures Due(SubmitterNext(s, r), w) == Due(s, w) + (if w == s.pointer then 1 else 0)
    ensures w == s.pointer ==> Due(s, w) == |s.gates| - 1
  {
    var n: pos := |s.workers|;
    var start, left := s.submitter.start, s.submitter.left;
    RoundRobin(n, start, n - left, w);
    var v := (w + n - start) % n;
    assert Visited(n, start, left, w) == (v < n - left) && Visited(n, start, left - 1, w) == (v < n - left + 1);
    hide Visited;
  }

  lemma BarrierPointer(s: State, r: Request)
    requires SubmitterOk(s) && s.submitter.Barriering? && s.submitter.left > 0
    ensures SubmitterOk(SubmitterNext(s, r))
  {
    var n: pos := |s.workers|;
    NextPointer(n, s.submitter.start, n - s.submitter.left);
    DivMod(s.pointer + 1, n);
  }

  lemma BarrierJobKeeps(s: State, r: Request)
    requires Inv(s) && s.submitter.Barriering?
    ensures Inv(SubmitterNext(s, r))
  {
    assert SubmitterOk(s);
    hide Inv, Visited;
    var n: pos := |s.workers|;
    var s' := SubmitterNext(s, r);
    var start, left := s.submitter.start, s.submitter.left;
    if left == 0 {
      forall w: nat | w < n
        ensures Due(s', w) == Due(s, w)
      {
        AllVisited(n, start, w);
      }
      hide Due;
      SubmitterOnly(s, s');
    } else {
      BarrierPointer(s, r);
      forall w: nat | w < n
        ensures Due(s', w) == Due(s, w) + (if w == s.pointer then 1 else 0)
        ensures w == s.pointer ==> Due(s, w) == |s.gates| - 1
      {
        BarrierDue(s, r, w);
      }
      hide Due, SubmitterOk;
      EnqueueKeeps(s, s.pointer, Barrier(|s.gates| - 1), s');
    }
  }

  lemma AllVisited(n: pos, start: nat, w: nat)
    ensures Visited(n, start, 0, w)
  {
    DivMod(w + n - start, n);
  }

  lemma RequestKeeps(s: State, r: Request)
    requires Inv(s) && s.submitter.Idle?
    ensures Inv(SubmitterNext(s, r))
  {
    var s' := SubmitterNext(s, r);
    match r
    case SubmitJob(id) =>
      DivMod(s.pointer + 1, |s.workers|);
      assert SubmitterOk(s');
      hide Inv, Bars, SubmitterOk;
      EnqueueKeeps(s, s.pointer, Plain(id, |s.gates|), s');
    case SubmitToAll(id) => SubmitterOnly(s, s');
    case SubmitBarrier => BeginBarrierKeeps(s);
    case Stop => SubmitterOnly(s, s');
  }

  lemma SubmitterKeeps(s: State, r: Request)
    requires Inv(s)
    ensures Inv(SubmitterNext(s, r))
  {
    var s' := SubmitterNext(s, r);
    assert SubmitterOk(s);
    hide Inv;
    match s.submitter
    case Idle => RequestKeeps(s, r);
    case Barriering(start, left) => BarrierJobKeeps(s, r);
    case Broadcasting(id, next) =>
      if next >= |s.workers| { SubmitterOnly(s, s'); } else { EnqueueKeeps(s, next, Plain(id, |s.gates|), s'); }
    case Stopping(next) =>
      if next >= |s.workers| { SubmitterOnly(s, s'); } else { EnqueueKeeps(s, next, Poison, s'); }
    case Stopped =>
  }

  // A run: the submitter and the workers move in any order.
  datatype Move = Submit(r: Request) | Work(w: nat)

  ghost predicate Step(s: State, s': State, m: Move) {
    match m
    case Submit(r) => s.pointer < |s.workers| && s' == SubmitterNext(s, r)
    case Work(w) => w < |s.workers| && Enabled(s, w) && s' == WorkerNext(s, w)
  }

  ghost predicate IsRun(run: seq<State>, moves: seq<Move>, n: pos) {
    && |run| == |moves| + 1 && run[0] == Start(n)
    && forall i: nat :: i < |moves| ==> Step(run[i], run[i + 1], moves[i])
  }

  lemma {:induction false} RunInv(run: seq<State>, moves: seq<Move>, n: pos, i: nat)
    requires IsRun(run, moves, n) && i < |run|
    ensures Inv(run[i])
  {
    hide Inv, SubmitterNext, WorkerNext, Enabled;
    if i == 0 {
      StartInv(n);
    } else {
      RunInv(run, moves, n, i - 1);
      assert Step(run[i - 1], run[i - 1 + 1], moves[i - 1]);
      match moves[i - 1]
      case Submit(r) => SubmitterKeeps(run[i - 1], r);
      case Work(w) => WorkerKeeps(run[i - 1], w);
    }
  }

  // Job i of a worker's log has been started: it is finished or running.
  predicate Started(x: Worker, i: nat) {
    i < |x.done| || (i == |x.done| && x.phase.Running?)
  }

  // A released barrier has every worker's arrival.
  lemma AllArrived(s: State, b: nat, w: nat)
    requires Inv(s) && Open(s.gates, b) && w < |s.workers|
    ensures Passes(s.workers[w]) > b
  {
    GatesAre(s, b);
    ArrivalsBound(s.workers, b);
    hide Inv, Arrivals, Passes;
  }

  // The barriers before a job that has been started are all released.
  lemma StartedPast(s: State, v: nat, i: nat)
    requires Inv(s) && v < |s.workers| && i < |Log(s.workers[v])| && Started(s.workers[v], i)
             && Log(s.workers[v])[i].Plain?
    ensures forall b: nat :: b < Log(s.workers[v])[i].epoch ==> Open(s.gates, b)
  {
    var x := s.workers[v];
    LogsAre(s, v);
    assert TaggedAt(Log(x), i);
    BarsMono(Log(x), i, |x.done|);
    assert Log(x)[..|x.done|] == x.done;
    hide Inv, Bars, Log, Tagged;
  }

  // A job not finished yet is behind every barrier its worker has arrived at.
  lemma NotPast(x: Worker, k: nat)
    requires Tagged(Log(x)) && PhaseOk(x) && |x.done| <= k < |Log(x)| && Log(x)[k].Plain?
    ensures Passes(x) <= Log(x)[k].epoch
  {
    var d := |x.done|;
    assert TaggedAt(Log(x), k);
    assert Log(x)[..d] == x.done;
    BarsMono(Log(x), d, k);
    if x.phase.Blocked? || x.phase.Releasing? || x.phase.Deleting? {
      assert Log(x)[d] == x.batch[0] && Log(x)[..d + 1] == x.done + [x.batch[0]];
      BarsPush(x.done, x.batch[0]);
      BarsMono(Log(x), d + 1, k);
    }
    hide Bars, Log, Tagged;
  }

  lemma FinishedBefore(s: State, w: nat, k: nat)
    requires Inv(s) && w < |s.workers| && k < |Log(s.workers[w])| && Log(s.workers[w])[k].Plain?
    requires Passes(s.workers[w]) > Log(s.workers[w])[k].epoch
    ensures k < |s.workers[w].done|
  {
    hide Inv, Bars, Log, Tagged, Passes, PassOk;
    LogsAre(s, w);
    if k >= |s.workers[w].done| { NotPast(s.workers[w], k); }
  }

  /**
   The barrier promise: under every interleaving of one submitter and any number of workers,
   once a job submitted after a barrier has started, on any worker, every job submitted before
   that barrier has finished, on every worker.
   */
  lemma BarrierSeparates(run: seq<State>, moves: seq<Move>, n: pos, t: nat, v: nat, i: nat, w: nat, k: nat)
    requires IsRun(run, moves, n) && t < |run| && v < |run[t].workers| && w < |run[t].workers|
    requires i < |Log(run[t].workers[v])| && Log(run[t].workers[v])[i].Plain? && Started(run[t].workers[v], i)
    requires k < |Log(run[t].workers[w])| && Log(run[t].workers[w])[k].Plain?
    requires Log(run[t].workers[w])[k].epoch < Log(run[t].workers[v])[i].epoch
    ensures k < |run[t].workers[w].done|
  {
    hide Inv, Log, Passes, Started;
    RunInv(run, moves, n, t);
    StartedPast(run[t], v, i);
    AllArrived(run[t], Log(run[t].workers[w])[k].epoch, w);
    FinishedBefore(run[t], w, k);
  }

  // A job is put at the end of one log and stays where it is: steps of workers change no log.
  lemma WorkersKeepLogs(s: State, w: nat, k: nat)
    requires Inv(s) && w < |s.workers| && Enabled(s, w) && k < |s.workers|
    ensures |WorkerNext(s, w).workers| == |s.workers|
    ensures Log(WorkerNext(s, w).workers[k]) == Log(s.workers[k])
    ensures s.workers[k].done <= WorkerNext(s, w).workers[k].done
  {
    var x := s.workers[w];
    if x.phase.Ready? && x.batch == [] { assert Log(Fetch(x)) == Log(x); }
    if x.batch != [] { FinishLog(x); }
    hide Inv, Bars;
  }

  /** The counter is never touched after it is deleted: no worker is left that could. */
  lemma NoTouchAfterDelete(s: State, w: nat)
    requires Inv(s) && w < |s.workers| && Enabled(s, w)
    requires s.workers[w].phase.Arriving? || s.workers[w].phase.Releasing? || s.workers[w].phase.Deleting?
    ensures At(s.workers[w]) < |s.gates| && !s.gates[At(s.workers[w])].deleted
  {
    LogsAre(s, w);
    AtNext(s, w);
    if s.workers[w].phase.Arriving? {
      NotFull(s, w, At(s.workers[w]));
    } else {
      GatesAre(s, At(s.workers[w]));
    }
    hide Inv, Bars, Log, Tagged, Arrivals;
  }

  // A worker with something left to do.
  predicate Pending(x: Worker) {
    !x.phase.Dead? && (x.batch != [] || x.queue != [])
  }

  // A worker held up at an unreleased barrier waits for one that has arrived at fewer barriers
  // and has something to do; the one with the fewest of all can move.
  lemma {:induction false} SomeoneMoves(s: State, w: nat, b: nat) returns (v: nat)
    requires Inv(s) && !s.submitter.Barriering? && w < |s.workers|
    requires s.workers[w].phase.Blocked? && At(s.workers[w]) == b && b < |s.gates| && !s.gates[b].released
    ensures v < |s.workers| && Enabled(s, v)
    decreases b
  {
    GatesAre(s, b);
    ArrivalsBound(s.workers, b);
    if s.gates[b].counter == |s.workers| {
      v := s.gates[b].last;
      LogsAre(s, v);
      hide Inv, Arrivals, Passes, Log, Tagged, Bars;
    } else {
      var u :| 0 <= u < |s.workers| && Passes(s.workers[u]) <= b;
      BehindIsPending(s, u, b);
      hide Inv, Arrivals, Passes, Log, Tagged, Bars;
      if Enabled(s, u) {
        v := u;
      } else {
        HeldUp(s, u);
        AtNext(s, u);
        hide LogOk, PassOk, GateOk;
        PassesOfBlocked(s.workers[u]);
        v := SomeoneMoves(s, u, At(s.workers[u]));
      }
    }
  }

  lemma PassesOfBlocked(x: Worker)
    requires x.phase.Blocked?
    ensures Passes(x) == Bars(x.done) + 1
  {
  }

  // A worker with nothing to do has arrived at every barrier it was given.
  lemma PassedAll(x: Worker)
    requires Tagged(Log(x)) && PhaseOk(x) && !Pending(x)
    ensures Passes(x) >= Bars(Log(x))
  {
    hide Bars, Tagged;
    if x.phase.Dead? {
      Current(x);
      assert Log(x) == x.done + [Poison];
      BarsPush(x.done, Poison);
    } else {
      NothingLeft(x);
    }
  }

  lemma LogIs(s: State, w: nat)
    requires Inv(s) && w < |s.workers|
    ensures Tagged(Log(s.workers[w])) && PhaseOk(s.workers[w])
    ensures !s.submitter.Barriering? ==> Bars(Log(s.workers[w])) == |s.gates|
  {
    hide Tagged, Log, Bars, PhaseOk, PassOk, GateOk;
    LogsAre(s, w);
  }

  lemma NothingPending(s: State, u: nat)
    requires Inv(s) && !s.submitter.Barriering? && u < |s.workers| && !Pending(s.workers[u])
    ensures Passes(s.workers[u]) >= |s.gates|
  {
    hide *;
    LogIs(s, u);
    PassedAll(s.workers[u]);
  }

  // A worker that has not arrived at a submitted barrier still has it before it.
  lemma BehindIsPending(s: State, u: nat, b: nat)
    requires Inv(s) && !s.submitter.Barriering? && u < |s.workers| && b < |s.gates| && Passes(s.workers[u]) <= b
    ensures Pending(s.workers[u])
  {
    hide Inv, Passes;
    if !Pending(s.workers[u]) { NothingPending(s, u); }
  }

  // What keeps a worker with something to do from moving.
  lemma HeldUp(s: State, u: nat)
    requires Inv(s) && u < |s.workers| && Pending(s.workers[u]) && !Enabled(s, u)
    ensures s.workers[u].phase.Blocked? && s.workers[u].batch != [] && s.workers[u].batch[0].Barrier?
    ensures At(s.workers[u]) < |s.gates| && !s.gates[At(s.workers[u])].released
  {
    LogsAre(s, u);
    if s.workers[u].batch != [] && s.workers[u].batch[0].Barrier? { AtNext(s, u); }
    hide Inv, Bars, Log, Tagged, PassOk;
  }

  lemma SomeWorkerMoves(s: State, w: nat) returns (v: nat)
    requires Inv(s) && !s.submitter.Barriering? && w < |s.workers| && Pending(s.workers[w])
    ensures v < |s.workers| && Enabled(s, v)
  {
    hide Inv, Bars, Log, Tagged;
    if Enabled(s, w) {
      v := w;
    } else {
      HeldUp(s, w);
      v := SomeoneMoves(s, w, At(s.workers[w]));
    }
  }

  /**
   No deadlock: whenever no barrier is half submitted and some worker has something left to do,
   some worker can move; in particular with nothing but barriers pending.
   */
  lemma NoDeadlock(run: seq<State>, moves: seq<Move>, n: pos, t: nat, w: nat) returns (v: nat)
    requires IsRun(run, moves, n) && t < |run| && !run[t].submitter.Barriering?
    requires w < |run[t].workers| && Pending(run[t].workers[w])
    ensures v < |run[t].workers| && Enabled(run[t], v)
  {
    hide Inv, IsRun, Enabled;
    RunInv(run, moves, n, t);
    v := SomeWorkerMoves(run[t], w);
  }

  // Steps a worker's log still holds.
  function Left(x: Worker): nat {
    6 * (|x.batch| + |x.queue|)
    + (if x.batch == [] && x.queue != [] then 1 else 0)
    + match x.phase
      case Ready => if x.batch == [] && x.queue == [] then 0 else 4
      case Arriving => 3
      case Releasing => 2
      case Deleting => 1
      case Running => 1
      case Blocked => 1
      case Dead => 0
  }

  /** Every step of a worker brings it closer to the end of what it has been given. */
  lemma WorkEnds(s: State, w: nat)
    requires Inv(s) && w < |s.workers| && Enabled(s, w)
    ensures Left(WorkerNext(s, w).workers[w]) < Left(s.workers[w])
  {
    LogsAre(s, w);
    hide Inv, Bars, Log, Tagged, PassOk;
  }

  /** A worker that has taken the poison has finished everything ever submitted to it. */
  lemma StopFinishesAll(run: seq<State>, moves: seq<Move>, n: pos, t: nat, w: nat)
    requires IsRun(run, moves, n) && t < |run| && w < |run[t].workers| && run[t].workers[w].phase.Dead?
    ensures Log(run[t].workers[w]) == run[t].workers[w].done + [Poison]
    ensures Poisoned(run[t], w)
  {
    var x := run[t].workers[w];
    RunInv(run, moves, n, t);
    LogsAre(run[t], w);
    Current(x);
    assert Log(x) == x.done + [Poison];
    hide Inv, Bars, Tagged, PassOk, IsRun;
  }

  function TotalLeft(ws: seq<Worker>): nat {
    if ws == [] then 0 else TotalLeft(ws[..|ws| - 1]) + Left(ws[|ws| - 1])
  }

  lemma {:induction false} LeftUpdate(ws: seq<Worker>, w: nat, x: Worker)
    requires w < |ws|
    ensures TotalLeft(ws[w := x]) == TotalLeft(ws) - Left(ws[w]) + Left(x)
  {
    hide Left;
    var n := |ws| - 1;
    if w == n {
      assert ws[w := x][..n] == ws[..n];
    } else {
      assert ws[w := x][..n] == ws[..n][w := x];
      LeftUpdate(ws[..n], w, x);
    }
  }

  lemma OneWorker(s: State, w: nat)
    requires w < |s.workers| && Enabled(s, w)
    ensures |WorkerNext(s, w).workers| == |s.workers|
    ensures WorkerNext(s, w).workers == s.workers[w := WorkerNext(s, w).workers[w]]
    ensures WorkerNext(s, w).submitter == s.submitter
  {
    hide Fetch, Begin, Finish;
  }

  // Steps of workers alone, from one state on.
  ghost predicate IsWork(states: seq<State>, who: seq<nat>) {
    && |states| == |who| + 1
    && forall i: nat :: i < |who| ==> Step(states[i], states[i + 1], Work(who[i]))
  }

  // However the workers take their turns, they take no more of them than there is left to do.
  lemma {:induction false} WorkBounded(states: seq<State>, who: seq<nat>)
    requires IsWork(states, who) && Inv(states[0])
    ensures |states| == |who| + 1
    ensures Inv(states[|who|]) && states[|who|].submitter == states[0].submitter
    ensures |states[|who|].workers| == |states[0].workers|
    ensures |who| + TotalLeft(states[|who|].workers) <= TotalLeft(states[0].workers)
    decreases |who|
  {
    hide Inv, WorkerNext, Enabled, SubmitterNext;
    if |who| > 0 {
      var n := |who| - 1;
      assert IsWork(states[..|who|], who[..n]);
      WorkBounded(states[..|who|], who[..n]);
      var s := states[n];
      assert Step(s, states[n + 1], Work(who[n]));
      WorkerKeeps(s, who[n]);
      WorkEnds(s, who[n]);
      OneWorker(s, who[n]);
      LeftUpdate(s.workers, who[n], states[n + 1].workers[who[n]]);
    }
  }

  /**
   The work gets done: from any state the invariant admits, with no barrier half submitted, the
   workers' turns are bounded by what is left, and whenever none of them can move none has
   anything left to do.
   */
  lemma WorkDrains(states: seq<State>, who: seq<nat>, w: nat)
    requires IsWork(states, who) && Inv(states[0]) && !states[0].submitter.Barriering? && w < |states[0].workers|
    ensures |states| == |who| + 1 && |who| <= TotalLeft(states[0].workers)
    ensures |states[|who|].workers| == |states[0].workers|
    ensures (forall v: nat :: v < |states[|who|].workers| ==> !Enabled(states[|who|], v)) ==>
              !Pending(states[|who|].workers[w])
  {
    hide Inv, IsWork, Enabled, Pending;
    WorkBounded(states, who);
    if Pending(states[|who|].workers[w]) {
      var v := SomeWorkerMoves(states[|who|], w);
    }
  }

  // No worker has finished the poison: it dies of it.
  ghost predicate PoisonUnfinished(s: State) {
    forall w: nat :: w < |s.workers| ==> Poison !in s.workers[w].done
  }

  lemma WorkerKeepsUnfinished(s: State, w: nat)
    requires Inv(s) && w < |s.workers| && Enabled(s, w) && PoisonUnfinished(s)
    ensures PoisonUnfinished(WorkerNext(s, w))
  {
    LogsAre(s, w);
    hide Inv, Tagged, Bars, Log, PassOk, Fetch;
  }

  lemma SubmitterKeepsUnfinished(s: State, r: Request)
    requires Inv(s) && PoisonUnfinished(s)
    ensures PoisonUnfinished(SubmitterNext(s, r))
  {
    assert SubmitterOk(s);
    hide Inv;
  }

  lemma {:induction false} RunUnfinished(run: seq<State>, moves: seq<Move>, n: pos, i: nat)
    requires IsRun(run, moves, n) && i < |run|
    ensures PoisonUnfinished(run[i])
  {
    hide Inv, SubmitterNext, WorkerNext, Enabled, PoisonUnfinished;
    if i == 0 {
      StartUnfinished(n);
    } else {
      RunUnfinished(run, moves, n, i - 1);
      RunInv(run, moves, n, i - 1);
      assert Step(run[i - 1], run[i - 1 + 1], moves[i - 1]);
      match moves[i - 1]
      case Submit(r) => SubmitterKeepsUnfinished(run[i - 1], r);
      case Work(w) => WorkerKeepsUnfinished(run[i - 1], w);
    }
  }

  lemma StartUnfinished(n: pos)
    ensures PoisonUnfinished(Start(n))
  {
  }

  /**
   stop joins: once every queue has its poison, the workers stop moving only when every one of
   them is dead, and they do so after no more steps than there was left to do.
   */
  lemma StopJoins(run: seq<State>, moves: seq<Move>, n: pos, t: nat, w: nat)
    requires IsRun(run, moves, n) && t < |run| && run[t].submitter.Stopped? && w < |run[t].workers|
    requires forall v: nat :: v < |run[t].workers| ==> !Enabled(run[t], v)
    ensures run[t].workers[w].phase.Dead?
  {
    hide Inv, IsRun, Enabled, Bars, Tagged, PassOk;
    RunInv(run, moves, n, t);
    RunUnfinished(run, moves, n, t);
    LogsAre(run[t], w);
    var x := run[t].workers[w];
    NothingLeft(x);
    if Pending(x) {
      var v := SomeWorkerMoves(run[t], w);
    }
  }

  lemma NothingLeft(x: Worker)
    ensures x.batch == [] && x.queue == [] ==> Log(x) == x.done
  {
  }

  // Exactly this job has been put at the end of worker w's log, and nothing else has changed there
  // or at any other worker.
  ghost predicate Lands(s: State, s': State, w: nat, j: Job) {
    && w < |s.workers| == |s'.workers|
    && s'.workers == s.workers[w := s'.workers[w]]
    && Log(s'.workers[w]) == Log(s.workers[w]) + [j]
    && s'.workers[w].done == s.workers[w].done && s'.workers[w].batch == s.workers[w].batch
    && s'.workers[w].phase == s.workers[w].phase
  }

  lemma EnqueueLands(s: State, w: nat, j: Job)
    requires w < |s.workers|
    ensures Lands(s, Enqueue(s, w, j), w, j)
  {
    var x := s.workers[w];
    assert x.done + x.batch + (x.queue + [j]) == x.done + x.batch + x.queue + [j];
  }

  /** submitJob: the job reaches the queue at the pointer, and only it, and the pointer goes on. */
  lemma SubmitLands(s: State, id: nat)
    requires SubmitterOk(s) && s.submitter.Idle?
    ensures var s' := SubmitterNext(s, SubmitJob(id));
            && Lands(s, s', s.pointer, Plain(id, |s.gates|))
            && s'.pointer == (s.pointer + 1) % |s.workers| && s'.gates == s.gates && s'.submitter == s.submitter
  {
    EnqueueLands(s, s.pointer, Plain(id, |s.gates|));
    hide Log;
  }

  // A job of a barrier does, too.
  lemma BarrierLands(s: State, r: Request)
    requires SubmitterOk(s) && s.submitter.Barriering? && s.submitter.left > 0
    ensures var s' := SubmitterNext(s, r);
            && Lands(s, s', s.pointer, Barrier(|s.gates| - 1))
            && s'.pointer == (s.pointer + 1) % |s.workers| && s'.gates == s.gates
            && s'.submitter == Barriering(s.submitter.start, s.submitter.left - 1)
  {
    EnqueueLands(s, s.pointer, Barrier(|s.gates| - 1));
    hide Log;
  }

  // One step of submitJobToAllThreads: the next queue, and the pointer stays.
  lemma BroadcastLands(s: State, r: Request)
    requires SubmitterOk(s) && s.submitter.Broadcasting? && s.submitter.next < |s.workers|
    ensures var s' := SubmitterNext(s, r);
            && Lands(s, s', s.submitter.next, Plain(s.submitter.id, |s.gates|))
            && s'.pointer == s.pointer && s'.gates == s.gates
            && s'.submitter == Broadcasting(s.submitter.id, s.submitter.next + 1)
  {
    EnqueueLands(s, s.submitter.next, Plain(s.submitter.id, |s.gates|));
    hide Log;
  }

  lemma PoisonLands(s: State, r: Request)
    requires SubmitterOk(s) && s.submitter.Stopping? && s.submitter.next < |s.workers|
    ensures var s' := SubmitterNext(s, r);
            && Lands(s, s', s.submitter.next, Poison)
            && s'.pointer == s.pointer && s'.gates == s.gates && s'.submitter == Stopping(s.submitter.next + 1)
  {
    EnqueueLands(s, s.submitter.next, Poison);
    hide Log;
  }

  // What a step of the submitter puts into a queue: where, and what.
  datatype Landing = Nothing | Landed(w: nat, job: Job)

  function LandingOf(s: State, r: Request): Landing {
    match s.submitter
    case Idle => if r.SubmitJob? then Landed(s.pointer, Plain(r.id, |s.gates|)) else Nothing
    case Barriering(_, left) => if left > 0 && s.gates != [] then Landed(s.pointer, Barrier(|s.gates| - 1)) else Nothing
    case Broadcasting(id, next) => if next < |s.workers| then Landed(next, Plain(id, |s.gates|)) else Nothing
    case Stopping(next) => if next < |s.workers| then Landed(next, Poison) else Nothing
    case Stopped => Nothing
  }

  // The submitter puts there what it is to put there, and otherwise touches no worker.
  lemma SubmitterLands(s: State, r: Request)
    requires SubmitterOk(s)
    ensures match LandingOf(s, r)
            case Nothing => SubmitterNext(s, r).workers == s.workers
            case Landed(w, job) => Lands(s, SubmitterNext(s, r), w, job)
  {
    hide Lands, Log;
    match s.submitter
    case Idle => if r.SubmitJob? { SubmitLands(s, r.id); }
    case Barriering(_, left) => if left > 0 { BarrierLands(s, r); }
    case Broadcasting(_, next) => if next < |s.workers| { BroadcastLands(s, r); }
    case Stopping(next) => if next < |s.workers| { PoisonLands(s, r); }
    case Stopped =>
  }

  // How often a job with this id stands in a log.
  function Copies(q: seq<Job>, id: nat): nat {
    if q == [] then 0 else Copies(q[..|q| - 1], id) + (if q[|q| - 1].Plain? && q[|q| - 1].id == id then 1 else 0)
  }

  function AllCopies(ws: seq<Worker>, id: nat): nat {
    if ws == [] then 0 else AllCopies(ws[..|ws| - 1], id) + Copies(Log(ws[|ws| - 1]), id)
  }

  lemma {:induction false} CopiesUpdate(ws: seq<Worker>, w: nat, x: Worker, id: nat)
    requires w < |ws|
    ensures AllCopies(ws[w := x], id) == AllCopies(ws, id) - Copies(Log(ws[w]), id) + Copies(Log(x), id)
  {
    hide Log, Copies;
    var n := |ws| - 1;
    if w == n {
      assert ws[w := x][..n] == ws[..n];
    } else {
      assert ws[w := x][..n] == ws[..n][w := x];
      CopiesUpdate(ws[..n], w, x, id);
    }
  }

  lemma CopiesPush(q: seq<Job>, j: Job, id: nat)
    ensures Copies(q + [j], id) == Copies(q, id) + (if j.Plain? && j.id == id then 1 else 0)
  {
    assert (q + [j])[..|q|] == q;
  }

  // Copies of a job that a move adds: a submitJob that is accepted adds one, each step of a
  // submitJobToAllThreads adds one.
  function Adds(s: State, m: Move, id: nat): nat {
    if m.Submit? && s.submitter.Idle? && m.r == SubmitJob(id) then 1
    else if m.Submit? && s.submitter.Broadcasting? && s.submitter.id == id && s.submitter.next < |s.workers| then 1
    else 0
  }

  lemma SubmitterAdds(s: State, r: Request, id: nat)
    requires SubmitterOk(s)
    ensures AllCopies(SubmitterNext(s, r).workers, id) == AllCopies(s.workers, id) + Adds(s, Submit(r), id)
  {
    hide Log, Copies, AllCopies, SubmitterNext;
    SubmitterLands(s, r);
    match LandingOf(s, r)
    case Nothing =>
    case Landed(w, job) =>
      CopiesUpdate(s.workers, w, SubmitterNext(s, r).workers[w], id);
      CopiesPush(Log(s.workers[w]), job, id);
  }

  lemma WorkerAdds(s: State, w: nat, id: nat)
    requires Inv(s) && w < |s.workers| && Enabled(s, w)
    ensures AllCopies(WorkerNext(s, w).workers, id) == AllCopies(s.workers, id)
  {
    hide Log, Copies, AllCopies, WorkerNext, Inv, Enabled;
    WorkersKeepLogs(s, w, w);
    OneWorker(s, w);
    CopiesUpdate(s.workers, w, WorkerNext(s, w).workers[w], id);
  }

  function Added(run: seq<State>, moves: seq<Move>, i: nat, id: nat): nat
    requires i <= |moves| && |run| == |moves| + 1
  {
    if i == 0 then 0 else Added(run, moves, i - 1, id) + Adds(run[i - 1], moves[i - 1], id)
  }

  lemma SubmitterIsOk(s: State)
    requires Inv(s)
    ensures SubmitterOk(s)
  {
  }

  /**
   No job is lost or doubled: at every point of every run the copies of a job in all logs are
   exactly those that have been submitted.
   */
  lemma {:induction false} JobsAccountedFor(run: seq<State>, moves: seq<Move>, n: pos, i: nat, id: nat)
    requires IsRun(run, moves, n) && i <= |moves|
    ensures AllCopies(run[i].workers, id) == Added(run, moves, i, id)
  {
    hide Inv, SubmitterNext, WorkerNext, Enabled, AllCopies, Adds;
    if i == 0 {
      NoCopies(n, id);
    } else {
      JobsAccountedFor(run, moves, n, i - 1, id);
      RunInv(run, moves, n, i - 1);
      SubmitterIsOk(run[i - 1]);
      assert Step(run[i - 1], run[i - 1 + 1], moves[i - 1]);
      match moves[i - 1]
      case Submit(r) => SubmitterAdds(run[i - 1], r, id);
      case Work(w) =>
        WorkerAdds(run[i - 1], w, id);
        WorkAddsNone(run[i - 1], w, id);
    }
  }

  lemma WorkAddsNone(s: State, w: nat, id: nat)
    ensures Adds(s, Work(w), id) == 0
  {
  }

  lemma {:induction false} NoCopies(n: nat, id: nat)
    ensures AllCopies(seq(n, _ => Worker([], [], [], Ready)), id) == 0
  {
    if n > 0 {
      var ws := seq(n, _ => Worker([], [], [], Ready));
      assert ws[..n - 1] == seq(n - 1, _ => Worker([], [], [], Ready));
      NoCopies(n - 1, id);
      assert Log(ws[n - 1]) == [];
    }
  }

  // A move that takes a turn of the round robin: a submitJob or a job of a barrier.
  function Turn(s: State, m: Move): nat {
    if m.Submit? && ((s.submitter.Idle? && m.r.SubmitJob?) || (s.submitter.Barriering? && s.submitter.left > 0)) then 1
    else 0
  }

  function Turns(run: seq<State>, moves: seq<Move>, i: nat): nat
    requires i <= |moves| && |run| == |moves| + 1
  {
    if i == 0 then 0 else Turns(run, moves, i - 1) + Turn(run[i - 1], moves[i - 1])
  }

  lemma PointerTurns(s: State, r: Request)
    requires SubmitterOk(s)
    ensures SubmitterNext(s, r).pointer == if Turn(s, Submit(r)) == 1 then (s.pointer + 1) % |s.workers| else s.pointer
    ensures |SubmitterNext(s, r).workers| == |s.workers|
  {
  }

  lemma WorkerPointer(s: State, w: nat)
    requires w < |s.workers| && Enabled(s, w)
    ensures WorkerNext(s, w).pointer == s.pointer && |WorkerNext(s, w).workers| == |s.workers|
    ensures Turn(s, Work(w)) == 0
  {
    hide Fetch, Begin, Finish;
  }

  lemma NextTurn(k: nat, n: pos)
    ensures (k % n + 1) % n == (k + 1) % n
  {
    DivMod(k, n);
    DivShift(k + 1, k / n, n);
  }

  // Turn k of the round robin goes to queue k % n.
  lemma {:induction false} PointerIsTurns(run: seq<State>, moves: seq<Move>, n: pos, i: nat)
    requires IsRun(run, moves, n) && i <= |moves|
    ensures |run[i].workers| == n && run[i].pointer == Turns(run, moves, i) % n
  {
    hide Inv, SubmitterNext, WorkerNext, Enabled, Turn;
    if i == 0 {
      DivModUnique(0, 0, 0, n);
    } else {
      PointerIsTurns(run, moves, n, i - 1);
      RunInv(run, moves, n, i - 1);
      SubmitterIsOk(run[i - 1]);
      assert Step(run[i - 1], run[i - 1 + 1], moves[i - 1]);
      NextTurn(Turns(run, moves, i - 1), n);
      match moves[i - 1]
      case Submit(r) =>
        PointerTurns(run[i - 1], r);
        TurnIsOne(run[i - 1], moves[i - 1]);
      case Work(w) => WorkerPointer(run[i - 1], w);
    }
  }

  lemma TurnIsOne(s: State, m: Move)
    ensures Turn(s, m) == 0 || Turn(s, m) == 1
  {
  }

  // Logs only grow.
  lemma StepGrows(s: State, s': State, m: Move, w: nat)
    requires Inv(s) && Step(s, s', m) && w < |s.workers|
    ensures w < |s'.workers| && Log(s.workers[w]) <= Log(s'.workers[w])
  {
    hide Log, SubmitterNext, WorkerNext, Inv, Enabled;
    SubmitterIsOk(s);
    match m
    case Submit(r) => SubmitterLands(s, r);
    case Work(v) => WorkersKeepLogs(s, v, w);
  }

  lemma {:induction false} LogsGrow(run: seq<State>, moves: seq<Move>, n: pos, i: nat, j: nat, w: nat)
    requires IsRun(run, moves, n) && i <= j <= |moves| && w < n
    ensures |run[i].workers| == |run[j].workers| == n
    ensures Log(run[i].workers[w]) <= Log(run[j].workers[w])
    decreases j
  {
    hide Log, Step, Inv;
    PointerIsTurns(run, moves, n, i);
    PointerIsTurns(run, moves, n, j);
    if i < j {
      LogsGrow(run, moves, n, i, j - 1, w);
      RunInv(run, moves, n, j - 1);
      assert Step(run[j - 1], run[j - 1 + 1], moves[j - 1]);
      StepGrows(run[j - 1], run[j], moves[j - 1], w);
    }
  }

  // The place a submitted job has taken.
  ghost predicate StandsAt(x: Worker, p: nat, j: Job) {
    p < |Log(x)| && Log(x)[p] == j
  }

  lemma DoneInTheEnd(x: Worker, p: nat, j: Job)
    requires Tagged(Log(x)) && PhaseOk(x) && StandsAt(x, p, j) && j != Poison && !Pending(x)
    ensures p < |x.done| && x.done[p] == j
  {
    if x.phase.Dead? { Current(x); }
    hide Tagged, Bars;
  }

  /**
   A submitted job runs: submission k of the round robin stands from then on at the end of what
   queue k % n had, and when that queue's worker has nothing left to do it is among the jobs done.
   With WorkDrains, which bounds the steps to that point, every job accepted ends up done.
   */
  lemma SubmittedJobIsDone(run: seq<State>, moves: seq<Move>, n: pos, i: nat, j: nat, id: nat)
    requires IsRun(run, moves, n) && i < j <= |moves| && moves[i] == Submit(SubmitJob(id)) && run[i].submitter.Idle?
    ensures |run[i].workers| == |run[j].workers| == n && 0 <= Turns(run, moves, i) % n < n
    ensures var w := Turns(run, moves, i) % n;
            var p, job := |Log(run[i].workers[w])|, Plain(id, |run[i].gates|);
            && StandsAt(run[j].workers[w], p, job)
            && (!Pending(run[j].workers[w]) ==> p < |run[j].workers[w].done| && run[j].workers[w].done[p] == job)
  {
    hide Log, Inv, SubmitterNext, WorkerNext, Tagged, Pending;
    PointerIsTurns(run, moves, n, i);
    RunInv(run, moves, n, i);
    SubmitterIsOk(run[i]);
    SubmitLands(run[i], id);
    assert Step(run[i], run[i + 1], moves[i]);
    var w := run[i].pointer;
    LogsGrow(run, moves, n, i + 1, j, w);
    RunInv(run, moves, n, j);
    LogsAre(run[j], w);
    if !Pending(run[j].workers[w]) {
      DoneInTheEnd(run[j].workers[w], |Log(run[i].workers[w])|, Plain(id, |run[i].gates|));
    }
  }

  // From the start of a submitJobToAllThreads: the queues before `next` have one more job, this
  // one; the others have none.
  ghost predicate BroadcastSo(before: seq<Worker>, now: seq<Worker>, job: Job, next: nat) {
    && |now| == |before|
    && forall w: nat :: w < |now| ==> Log(now[w]) == if w < next then Log(before[w]) + [job] else Log(before[w])
  }

  // No other request gets in between.
  ghost predicate IsBroadcast(run: seq<State>, moves: seq<Move>, n: pos, i: nat, j: nat, id: nat) {
    && IsRun(run, moves, n) && i < j <= |moves|
    && run[i].submitter.Idle? && moves[i] == Submit(SubmitToAll(id))
    && forall k :: i < k < j ==> run[k].submitter.Broadcasting?
  }

  lemma {:induction false} BroadcastSoFar(run: seq<State>, moves: seq<Move>, n: pos, i: nat, j: nat, id: nat, k: nat)
    requires IsBroadcast(run, moves, n, i, j, id) && i < k < j
    ensures |run[k].gates| == |run[i].gates|
    ensures run[k].submitter.id == id
    ensures BroadcastSo(run[i].workers, run[k].workers, Plain(id, |run[i].gates|), run[k].submitter.next)
    decreases k
  {
    hide Log, Inv, WorkerNext, Enabled;
    assert Step(run[k - 1], run[k - 1 + 1], moves[k - 1]);
    RunInv(run, moves, n, k - 1);
    SubmitterIsOk(run[k - 1]);
    if k == i + 1 {
    } else {
      BroadcastSoFar(run, moves, n, i, j, id, k - 1);
      match moves[k - 1]
      case Submit(r) => BroadcastTurn(run[k - 1], r);
      case Work(w) => WorkersKeepAllLogs(run[k - 1], w);
    }
  }

  // While it goes on, a step of the submitter is a step of the broadcast.
  lemma BroadcastTurn(s: State, r: Request)
    requires SubmitterOk(s) && s.submitter.Broadcasting?
    ensures if s.submitter.next < |s.workers|
            then Lands(s, SubmitterNext(s, r), s.submitter.next, Plain(s.submitter.id, |s.gates|))
                 && SubmitterNext(s, r).submitter == Broadcasting(s.submitter.id, s.submitter.next + 1)
                 && SubmitterNext(s, r).gates == s.gates
            else SubmitterNext(s, r) == s.(submitter := Idle)
  {
    if s.submitter.next < |s.workers| { BroadcastLands(s, r); }
  }

  lemma WorkersKeepAllLogs(s: State, w: nat)
    requires Inv(s) && w < |s.workers| && Enabled(s, w)
    ensures WorkerNext(s, w).submitter == s.submitter && |WorkerNext(s, w).gates| == |s.gates|
    ensures |WorkerNext(s, w).workers| == |s.workers|
    ensures forall k: nat :: k < |s.workers| ==> Log(WorkerNext(s, w).workers[k]) == Log(s.workers[k])
  {
    hide Log, Inv, WorkerNext, Enabled;
    OneWorker(s, w);
    WorkerGates(s, w);
    forall k: nat | k < |s.workers|
      ensures Log(WorkerNext(s, w).workers[k]) == Log(s.workers[k])
    {
      WorkersKeepLogs(s, w, k);
    }
  }

  lemma WorkerGates(s: State, w: nat)
    requires w < |s.workers| && Enabled(s, w)
    ensures |WorkerNext(s, w).gates| == |s.gates|
  {
    hide Fetch, Begin, Finish;
  }

  /** submitJobToAllThreads: when it is over, every queue has got the job exactly once, at its end. */
  lemma BroadcastReachesAll(run: seq<State>, moves: seq<Move>, n: pos, i: nat, j: nat, id: nat)
    requires IsBroadcast(run, moves, n, i, j, id) && run[j].submitter.Idle?
    ensures BroadcastSo(run[i].workers, run[j].workers, Plain(id, |run[i].gates|), n)
  {
    hide Log, Inv, WorkerNext, Enabled;
    PointerIsTurns(run, moves, n, i);
    RunInv(run, moves, n, j - 1);
    SubmitterIsOk(run[j - 1]);
    assert Step(run[j - 1], run[j - 1 + 1], moves[j - 1]);
    if j - 1 > i {
      BroadcastSoFar(run, moves, n, i, j, id, j - 1);
      match moves[j - 1]
      case Submit(r) => BroadcastTurn(run[j - 1], r);
      case Work(w) => WorkersKeepAllLogs(run[j - 1], w);
    }
  }

  // A worker takes the oldest jobs of its queue, five at the most and all of them if there are
  // fewer, and leaves the rest in order.
  lemma FetchTakes(x: Worker)
    requires x.batch == []
    ensures Fetch(x).batch + Fetch(x).queue == x.queue && |Fetch(x).batch| <= 5
    ensures |Fetch(x).batch| < 5 ==> Fetch(x).queue == []
  {
  }

  // What a request does at once.
  lemma RequestsBegin(s: State, r: Request)
    requires SubmitterOk(s) && s.submitter.Idle?
    ensures var s' := SubmitterNext(s, r);
            match r
            case SubmitJob(_) => s'.submitter == Idle && s'.gates == s.gates
            case SubmitToAll(id) => s'.submitter == Broadcasting(id, 0) && s'.gates == s.gates
                && s'.workers == s.workers
            case SubmitBarrier =>
              && s'.submitter == Barriering(s.pointer, |s.workers|)
              && |s'.gates| == |s.gates| + 1 && s'.workers == s.workers
            case Stop => s'.submitter == Stopping(0) && s'.gates == s.gates && s'.workers == s.workers
  {
  }

  lemma StepGates(s: State, s': State, m: Move)
    requires Step(s, s', m)
    ensures |s.gates| <= |s'.gates|
  {
    match m
    case Submit(r) =>
    case Work(w) => WorkerGates(s, w);
    hide WorkerNext;
  }

  lemma {:induction false} GatesGrow(run: seq<State>, moves: seq<Move>, n: pos, i: nat, j: nat)
    requires IsRun(run, moves, n) && i <= j <= |moves|
    ensures |run[i].gates| <= |run[j].gates|
    decreases j
  {
    hide Step;
    if i < j {
      GatesGrow(run, moves, n, i, j - 1);
      assert Step(run[j - 1], run[j - 1 + 1], moves[j - 1]);
      StepGates(run[j - 1], run[j], moves[j - 1]);
    }
  }

  // A submitJob the submitter has accepted in this move, and where its job then stands.
  ghost predicate Accepted(run: seq<State>, moves: seq<Move>, i: nat, r: Request) {
    i < |moves| && |run| == |moves| + 1 && run[i].submitter.Idle? && moves[i] == Submit(r)
  }

  function QueueOf(run: seq<State>, moves: seq<Move>, n: pos, i: nat): nat
    requires i <= |moves| && |run| == |moves| + 1
  {
    DivMod(Turns(run, moves, i), n);
    Turns(run, moves, i) % n
  }

  function PlaceOf(run: seq<State>, moves: seq<Move>, n: pos, i: nat): nat
    requires i <= |moves| && |run| == |moves| + 1 && QueueOf(run, moves, n, i) < |run[i].workers|
  {
    |Log(run[i].workers[QueueOf(run, moves, n, i)])|
  }

  /**
   The barrier promise in the caller's terms: a job submitted, then a barrier, then another job;
   whenever the second job has started, on whatever worker, the first one is done.
   */
  lemma BarrierBetween(run: seq<State>, moves: seq<Move>, n: pos, i: nat, b: nat, j: nat, first: nat, second: nat,
                       t: nat)
    requires IsRun(run, moves, n) && i < b < j < t <= |moves|
    requires Accepted(run, moves, i, SubmitJob(first)) && Accepted(run, moves, b, SubmitBarrier)
    requires Accepted(run, moves, j, SubmitJob(second))
    ensures |run[i].workers| == |run[j].workers| == |run[t].workers| == n
    ensures QueueOf(run, moves, n, i) < n && QueueOf(run, moves, n, j) < n
    ensures StandsAt(run[t].workers[QueueOf(run, moves, n, j)], PlaceOf(run, moves, n, j),
                     Plain(second, |run[j].gates|))
    ensures Started(run[t].workers[QueueOf(run, moves, n, j)], PlaceOf(run, moves, n, j)) ==>
              var x, p := run[t].workers[QueueOf(run, moves, n, i)], PlaceOf(run, moves, n, i);
              p < |x.done| && x.done[p] == Plain(first, |run[i].gates|)
  {
    hide Log, Inv, SubmitterNext, WorkerNext, Started, Pending, Turns;
    SubmittedJobIsDone(run, moves, n, i, t, first);
    SubmittedJobIsDone(run, moves, n, j, t, second);
    PointerIsTurns(run, moves, n, j);
    GatesGrow(run, moves, n, i, b);
    GatesGrow(run, moves, n, b + 1, j);
    RunInv(run, moves, n, b);
    SubmitterIsOk(run[b]);
    assert Step(run[b], run[b + 1], moves[b]);
    RequestsBegin(run[b], SubmitBarrier);
    var v, w := QueueOf(run, moves, n, j), QueueOf(run, moves, n, i);
    var q, p := PlaceOf(run, moves, n, j), PlaceOf(run, moves, n, i);
    if Started(run[t].workers[v], q) {
      BarrierSeparates(run, moves, n, t, v, q, w, p);
      DonePlace(run[t].workers[w], p);
    }
  }

  lemma DonePlace(x: Worker, p: nat)
    requires p < |x.done|
    ensures p < |Log(x)| && Log(x)[p] == x.done[p]
  {
  }

  // A whole submitBarrier: from the move that begins it until the submitter is idle again.
  ghost predicate IsBarrierCall(run: seq<State>, moves: seq<Move>, n: pos, i: nat, j: nat) {
    && IsRun(run, moves, n) && i < j <= |moves|
    && Accepted(run, moves, i, SubmitBarrier)
    && forall k :: i < k < j ==> run[k].submitter.Barriering?
  }

  // Before the barrier the queue had these jobs; once visited it has the barrier's job as well.
  ghost predicate BarrierSo(before: seq<Worker>, now: seq<Worker>, start: nat, left: nat, job: Job) {
    && |now| == |before| > 0
    && forall w: nat :: w < |now| ==>
         Log(now[w]) == if Visited(|now|, start, left, w) then Log(before[w]) + [job] else Log(before[w])
  }

  lemma NoneVisited(n: pos, start: nat, w: nat)
    ensures !Visited(n, start, n, w)
  {
    DivMod(w + n - start, n);
  }

  lemma BarrierBegun(s: State)
    requires SubmitterOk(s) && s.submitter.Idle?
    ensures var s' := SubmitterNext(s, SubmitBarrier);
            BarrierSo(s.workers, s'.workers, s.pointer, |s.workers|, Barrier(|s.gates|))
  {
    RequestsBegin(s, SubmitBarrier);
    hide SubmitterNext, Log, Visited;
    forall w: nat | w < |s.workers|
      ensures !Visited(|s.workers|, s.pointer, |s.workers|, w)
    {
      NoneVisited(|s.workers|, s.pointer, w);
    }
  }

  // The queue at the pointer is the next one visited.
  lemma VisitedNext(s: State, w: nat)
    requires SubmitterOk(s) && s.submitter.Barriering? && s.submitter.left > 0 && w < |s.workers|
    ensures Visited(|s.workers|, s.submitter.start, s.submitter.left - 1, w)
            == (Visited(|s.workers|, s.submitter.start, s.submitter.left, w) || w == s.pointer)
    ensures w == s.pointer ==> !Visited(|s.workers|, s.submitter.start, s.submitter.left, w)
  {
    RoundRobin(|s.workers|, s.submitter.start, |s.workers| - s.submitter.left, w);
  }

  lemma BarrierTurn(before: seq<Worker>, s: State, r: Request, job: Job)
    requires SubmitterOk(s) && s.submitter.Barriering? && s.submitter.left > 0 && job == Barrier(|s.gates| - 1)
    requires BarrierSo(before, s.workers, s.submitter.start, s.submitter.left, job)
    ensures BarrierSo(before, SubmitterNext(s, r).workers, s.submitter.start, s.submitter.left - 1, job)
  {
    hide SubmitterNext, Log, Visited, SubmitterOk;
    BarrierLands(s, r);
    forall w: nat | w < |s.workers|
      ensures Log(SubmitterNext(s, r).workers[w])
              == if Visited(|s.workers|, s.submitter.start, s.submitter.left - 1, w) then Log(before[w]) + [job]
                 else Log(before[w])
    {
      VisitedNext(s, w);
    }
  }

  lemma {:induction false} BarrierSoFar(run: seq<State>, moves: seq<Move>, n: pos, i: nat, j: nat, k: nat)
    requires IsBarrierCall(run, moves, n, i, j) && i < k < j
    ensures |run[k].gates| == |run[i].gates| + 1
    ensures BarrierSo(run[i].workers, run[k].workers, run[k].submitter.start, run[k].submitter.left,
                      Barrier(|run[i].gates|))
    decreases k
  {
    hide Log, Inv, WorkerNext, Enabled, SubmitterNext, BarrierSo;
    var s := run[k - 1];
    assert Step(s, run[k - 1 + 1], moves[k - 1]);
    RunInv(run, moves, n, k - 1);
    SubmitterIsOk(s);
    if k == i + 1 {
      RequestsBegin(s, SubmitBarrier);
      BarrierBegun(s);
    } else {
      BarrierSoFar(run, moves, n, i, j, k - 1);
      match moves[k - 1]
      case Submit(r) =>
        BarrierMoves(s, r);
        BarrierTurn(run[i].workers, s, r, Barrier(|run[i].gates|));
      case Work(w) =>
        WorkersKeepAllLogs(s, w);
        BarrierUnmoved(run[i].workers, s.workers, WorkerNext(s, w).workers, s.submitter.start, s.submitter.left,
                       Barrier(|run[i].gates|));
    }
  }

  lemma BarrierMoves(s: State, r: Request)
    requires SubmitterOk(s) && s.submitter.Barriering?
    ensures SubmitterNext(s, r).submitter.Barriering? ==>
              && s.submitter.left > 0 && SubmitterNext(s, r).gates == s.gates
              && SubmitterNext(s, r).submitter == Barriering(s.submitter.start, s.submitter.left - 1)
    ensures !SubmitterNext(s, r).submitter.Barriering? ==>
              s.submitter.left == 0 && SubmitterNext(s, r) == s.(submitter := Idle)
  {
  }

  lemma BarrierUnmoved(before: seq<Worker>, ws: seq<Worker>, ws': seq<Worker>, start: nat, left: nat, job: Job)
    requires BarrierSo(before, ws, start, left, job) && |ws'| == |ws|
    requires forall k: nat :: k < |ws| ==> Log(ws'[k]) == Log(ws[k])
    ensures BarrierSo(before, ws', start, left, job)
  {
    hide Log, Visited;
  }

  /**
   submitBarrier: when it is over every queue has got the barrier's job exactly once, at its end,
   whatever the workers did meanwhile.
   */
  lemma BarrierReachesAll(run: seq<State>, moves: seq<Move>, n: pos, i: nat, j: nat, w: nat)
    requires IsBarrierCall(run, moves, n, i, j) && run[j].submitter.Idle? && w < n
    ensures |run[i].workers| == |run[j].workers| == n && |run[j].gates| == |run[i].gates| + 1
    ensures Log(run[j].workers[w]) == Log(run[i].workers[w]) + [Barrier(|run[i].gates|)]
  {
    hide Log, Inv, WorkerNext, Enabled, SubmitterNext, Visited;
    PointerIsTurns(run, moves, n, i);
    PointerIsTurns(run, moves, n, j);
    RunInv(run, moves, n, j - 1);
    SubmitterIsOk(run[j - 1]);
    assert Step(run[j - 1], run[j - 1 + 1], moves[j - 1]);
    if j - 1 == i {
      RequestsBegin(run[i], SubmitBarrier);
    } else {
      BarrierSoFar(run, moves, n, i, j, j - 1);
      match moves[j - 1]
      case Submit(r) =>
        BarrierMoves(run[j - 1], r);
        AllVisited(n, run[j - 1].submitter.start, w);
      case Work(v) => WorkersKeepAllLogs(run[j - 1], v);
    }
  }
}
