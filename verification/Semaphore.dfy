/**
 LightweightSemaphore for any number of threads, as a transition system: every atomic operation
 on m_count and on the kernel semaphore is one step of one thread.
 */
module Semaphore {
  import opened Arithmetic

  // How often a wait tries again before it gives in to the kernel semaphore.
  const SPIN: nat := 10000

  // Where a thread is.
  datatype Thread =
    | Outside                                            // in no operation
    | Loading(left: nat, blocking: bool)                 // about to read m_count; `left` tries remain after this one
    | Swapping(left: nat, blocking: bool, seen: int)     // has read a positive count, about to compare and exchange
    | Subtracting                                        // about to fetch_sub
    | Sleeping                                           // in the kernel wait
    | Adding(n: nat)                                     // in signal(n), about to fetch_add
    | Posting(left: nat)                                 // has kernel posts still to issue

  // m_count, the permits of the kernel semaphore, and what the threads do. The last two count
  // finished waits (and successful tryWaits) and units signalled.
  datatype State = State(count: int, kernel: nat, threads: seq<Thread>, completed: nat, signalled: nat)

  function Start(initial: nat, threads: nat): State {
    State(initial, 0, seq(threads, _ => Outside), 0, 0)
  }

  // What a failed try leads to: another one, the slow path, or false from tryWait.
  function Failed(left: nat, blocking: bool): Thread {
    if left > 0 then Loading(left - 1, blocking)
    else if blocking then Subtracting
    else Outside
  }

  // The operations a thread in none may begin.
  ghost predicate Begins(to: Thread) {
    to == Loading(SPIN, true) || to == Loading(0, false) || to.Adding?
  }

  // One step of thread t.
  ghost predicate Step(s: State, s': State, t: nat)
    requires t < |s.threads|
  {
    match s.threads[t]
    case Outside =>
      exists to :: Begins(to) && s' == s.(threads := s.threads[t := to])
    case Loading(left, blocking) =>
      s' == s.(threads := s.threads[t := if s.count > 0 then Swapping(left, blocking, s.count) else Failed(left,
          blocking)])
    case Swapping(left, blocking, seen) =>
      if s.count == seen
      then s' == s.(count := s.count - 1, completed := s.completed + 1, threads := s.threads[t := Outside])
      else s' == s.(threads := s.threads[t := Failed(left, blocking)])
    case Subtracting =>
      if s.count <= 0
      then s' == s.(count := s.count - 1, threads := s.threads[t := Sleeping])
      else s' == s.(count := s.count - 1, completed := s.completed + 1, threads := s.threads[t := Outside])
    case Sleeping =>
      s.kernel > 0 && s' == s.(kernel := s.kernel - 1, completed := s.completed + 1, threads := s.threads[t := Outside])
    case Adding(n) =>
      var toRelease := if -s.count < n then -s.count else n;
      s' == s.(count := s.count + n, signalled := s.signalled + n,
               threads := s.threads[t := if toRelease > 0 then Posting(toRelease) else Outside])
    case Posting(left) =>
      s' == s.(kernel := s.kernel + 1, threads := s.threads[t := if left > 1 then Posting(left - 1) else Outside])
  }

  function Asleep(th: Thread): nat { if th.Sleeping? then 1 else 0 }

  function Unposted(th: Thread): nat { if th.Posting? then th.left else 0 }

  function Total(w: Thread -> nat, ts: seq<Thread>): nat {
    if ts == [] then 0 else Total(w, ts[..|ts| - 1]) + w(ts[|ts| - 1])
  }

  lemma {:induction false} TotalUpdate(w: Thread -> nat, ts: seq<Thread>, t: nat, th: Thread)
    requires t < |ts|
    ensures Total(w, ts[t := th]) == Total(w, ts) - w(ts[t]) + w(th)
  {
    var n := |ts| - 1;
    if t == n {
      assert ts[t := th][..n] == ts[..n];
    } else {
      assert ts[t := th][..n] == ts[..n][t := th];
      TotalUpdate(w, ts[..n], t, th);
    }
  }

  lemma {:induction false} TotalAtLeast(w: Thread -> nat, ts: seq<Thread>, t: nat)
    requires t < |ts|
    ensures w(ts[t]) <= Total(w, ts)
  {
    if t < |ts| - 1 { TotalAtLeast(w, ts[..|ts| - 1], t); }
  }

  lemma {:induction false} TotalZero(w: Thread -> nat, n: nat)
    requires w(Outside) == 0
    ensures Total(w, seq(n, _ => Outside)) == 0
  {
    if n > 0 {
      assert seq(n, _ => Outside)[..n - 1] == seq(n - 1, _ => Outside);
      TotalZero(w, n - 1);
    }
  }

  // Someone has what is counted.
  lemma {:induction false} TotalWitness(w: Thread -> nat, ts: seq<Thread>) returns (t: nat)
    requires Total(w, ts) > 0
    ensures t < |ts| && w(ts[t]) > 0
  {
    t := |ts| - 1;
    if w(ts[t]) == 0 { t := TotalWitness(w, ts[..t]); }
  }

  function Sleepers(s: State): nat { Total(Asleep, s.threads) }

  function Posts(s: State): nat { Total(Unposted, s.threads) }

  // Units neither taken by a finished wait nor on their way to be: the abstract semaphore's count.
  function Permits(s: State): nat { Max(s.count, 0) + s.kernel + Posts(s) }

  /**
   The invariant: every thread in the slow path is owed by the negative count, by a kernel
   permit or by a post still to be issued; and units are conserved. A thread about to exchange
   has seen a positive count, and one that posts has something to post.
   */
  ghost predicate Inv(s: State, initial: nat) {
    && Sleepers(s) == Max(0, -s.count) + s.kernel + Posts(s)
    && s.completed + Permits(s) == initial + s.signalled
    && forall t: nat :: t < |s.threads| ==> Sane(s.threads[t])
  }

  ghost predicate Sane(th: Thread) {
    && (th.Swapping? ==> th.seen > 0)
    && (th.Posting? ==> th.left > 0)
  }

  lemma StartInv(initial: nat, threads: nat)
    ensures Inv(Start(initial, threads), initial)
  {
    TotalZero(Asleep, threads);
    TotalZero(Unposted, threads);
  }

  lemma StepKeepsInv(s: State, s': State, t: nat, initial: nat)
    requires t < |s.threads| && Inv(s, initial) && Step(s, s', t)
    ensures Inv(s', initial)
  {
    StepSane(s, s', t);
    StepSleepers(s, s', t);
    StepUnits(s, s', t);
    hide Step, Sane, Sleepers, Posts;
  }

  lemma StepSane(s: State, s': State, t: nat)
    requires t < |s.threads| && Step(s, s', t) && forall k: nat :: k < |s.threads| ==> Sane(s.threads[k])
    ensures forall k: nat :: k < |s'.threads| ==> Sane(s'.threads[k])
  {
    assert Sane(s.threads[t]);
    assert s'.threads == s.threads[t := s'.threads[t]];
  }

  lemma StepSleepers(s: State, s': State, t: nat)
    requires t < |s.threads| && Step(s, s', t) && Sane(s.threads[t])
    ensures Sleepers(s') - Max(0, -s'.count) - s'.kernel - Posts(s')
            == Sleepers(s) - Max(0, -s.count) - s.kernel - Posts(s)
  {
    hide Total;
    var th := s'.threads[t];
    TotalUpdate(Asleep, s.threads, t, th);
    TotalUpdate(Unposted, s.threads, t, th);
    assert s'.threads == s.threads[t := th];
  }

  lemma StepUnits(s: State, s': State, t: nat)
    requires t < |s.threads| && Step(s, s', t) && Sane(s.threads[t])
    ensures s'.completed + Permits(s') - s'.signalled == s.completed + Permits(s) - s.signalled
  {
    hide Total, Asleep;
    var th := s'.threads[t];
    TotalUpdate(Unposted, s.threads, t, th);
    assert s'.threads == s.threads[t := th];
  }

  // What a client sees of a step: nothing, one unit taken, or n units given.
  ghost predicate AbstractStep(permits: nat, completed: nat, signalled: nat, permits': nat, completed': nat,
                               signalled': nat) {
    || (permits' == permits && completed' == completed && signalled' == signalled)
    || (permits > 0 && permits' == permits - 1 && completed' == completed + 1 && signalled' == signalled)
    || (completed' == completed && signalled' >= signalled && permits' == permits + (signalled' - signalled))
  }

  /**
   Refinement: every step of the implementation is a step of the plain counting semaphore whose
   count is Permits, or invisible. In particular no wait ever finishes while Permits is 0.
   */
  lemma StepRefines(s: State, s': State, t: nat, initial: nat)
    requires t < |s.threads| && Inv(s, initial) && Step(s, s', t)
    ensures AbstractStep(Permits(s), s.completed, s.signalled, Permits(s'), s'.completed, s'.signalled)
  {
    TotalUpdate(Unposted, s.threads, t, s'.threads[t]);
    assert s'.threads == s.threads[t := s'.threads[t]];
    assert Sane(s.threads[t]);
    hide Total;
  }

  // A run from the start: each state follows from the one before by a step of the named thread.
  ghost predicate IsRun(run: seq<State>, who: seq<nat>, initial: nat, threads: nat) {
    && |run| == |who| + 1
    && run[0] == Start(initial, threads)
    && forall i: nat :: i < |who| ==> who[i] < |run[i].threads| && Step(run[i], run[i + 1], who[i])
  }

  lemma {:induction false} RunInv(run: seq<State>, who: seq<nat>, initial: nat, threads: nat, i: nat)
    requires IsRun(run, who, initial, threads) && i < |run|
    ensures Inv(run[i], initial)
  {
    if i == 0 {
      StartInv(initial, threads);
    } else {
      RunInv(run, who, initial, threads, i - 1);
      assert Step(run[i - 1], run[i - 1 + 1], who[i - 1]);
      StepKeepsInv(run[i - 1], run[i], who[i - 1], initial);
    }
  }

  /**
   Over every run and any number of threads: finished waits never exceed the units there have
   been; and whenever a waiter is asleep with no kernel permit and no post to come, every unit
   has been used. So no wakeup is lost: with a unit left, a sleeper can wake or a post is due.
   */
  lemma NoLostWakeup(run: seq<State>, who: seq<nat>, initial: nat, threads: nat, i: nat, t: nat)
    requires IsRun(run, who, initial, threads) && i < |run| && t < |run[i].threads|
    ensures run[i].completed <= initial + run[i].signalled
    ensures run[i].threads[t].Sleeping? && run[i].kernel == 0 && Posts(run[i]) == 0 ==>
              run[i].completed == initial + run[i].signalled
    ensures run[i].threads[t].Sleeping? && run[i].completed < initial + run[i].signalled ==>
              run[i].kernel > 0 || exists p: nat :: p < |run[i].threads| && run[i].threads[p].Posting?
  {
    RunInv(run, who, initial, threads, i);
    TotalAtLeast(Asleep, run[i].threads, t);
    if run[i].threads[t].Sleeping? && run[i].completed < initial + run[i].signalled && run[i].kernel == 0 {
      var p := TotalWitness(Unposted, run[i].threads);
      assert run[i].threads[p].Posting?;
    }
  }

  // Steps of its own a thread can still take before it is done or asleep.
  function Remaining(th: Thread): nat {
    match th
    case Outside => 0
    case Loading(left, blocking) => 2 * left + 3
    case Swapping(left, blocking, seen) => 2 * left + 2
    case Subtracting => 1
    case Sleeping => 0
    case Adding(n) => n + 1
    case Posting(left) => left
  }

  /**
   No operation spins for ever: each step of a thread inside an operation that is not asleep
   brings it closer to the end, whatever the others do; and it is never stuck.
   */
  lemma OperationEnds(s: State, t: nat)
    requires t < |s.threads| && Sane(s.threads[t]) && !s.threads[t].Outside? && !s.threads[t].Sleeping?
    ensures exists s' :: Step(s, s', t)
    ensures forall s' :: Step(s, s', t) ==> Remaining(s'.threads[t]) < Remaining(s.threads[t])
  {
    var th := s.threads[t];
    var s' := match th
      case Outside => s
      case Loading(left, blocking) =>
        s.(threads := s.threads[t := if s.count > 0 then Swapping(left, blocking, s.count) else Failed(left, blocking)])
      case Swapping(left, blocking, seen) =>
        if s.count == seen then s.(count := s.count - 1, completed := s.completed + 1,
                                   threads := s.threads[t := Outside])
        else s.(threads := s.threads[t := Failed(left, blocking)])
      case Subtracting =>
        if s.count <= 0 then s.(count := s.count - 1, threads := s.threads[t := Sleeping])
        else s.(count := s.count - 1, completed := s.completed + 1, threads := s.threads[t := Outside])
      case Sleeping => s
      case Adding(n) =>
        var toRelease := if -s.count < n then -s.count else n;
        s.(count := s.count + n, signalled := s.signalled + n,
           threads := s.threads[t := if toRelease > 0 then Posting(toRelease) else Outside])
      case Posting(left) =>
        s.(kernel := s.kernel + 1, threads := s.threads[t := if left > 1 then Posting(left - 1) else Outside]);
    assert Step(s, s', t);
  }

  // In wait(): its tries, its slow path, its sleep.
  predicate InWait(th: Thread) {
    (th.Loading? && th.blocking) || (th.Swapping? && th.blocking) || th.Subtracting? || th.Sleeping?
  }

  // In tryWait().
  predicate InTry(th: Thread) {
    (th.Loading? && !th.blocking) || (th.Swapping? && !th.blocking)
  }

  // This step returns from wait().
  predicate WaitReturns(s: State, s': State, t: nat) {
    t < |s.threads| == |s'.threads| && InWait(s.threads[t]) && s'.threads[t].Outside?
  }

  // This step makes tryWait() true: its compare and exchange succeeds.
  predicate TrySucceeds(s: State, s': State, t: nat) {
    t < |s.threads| == |s'.threads| && InTry(s.threads[t]) && s.threads[t].Swapping? && s.count == s.threads[t].seen
  }

  /**
   A wait returns only with a unit, and so does a tryWait that is true; a tryWait that is false has
   read a count that was not positive or lost the exchange to another thread; and a unit is taken
   by nothing else.
   */
  lemma UnitsTaken(s: State, s': State, t: nat)
    requires t < |s.threads| && Step(s, s', t)
    ensures |s'.threads| == |s.threads|
    ensures s'.completed == s.completed + (if WaitReturns(s, s', t) || TrySucceeds(s, s', t) then 1 else 0)
    ensures TrySucceeds(s, s', t) ==> s'.threads[t].Outside?
    ensures InTry(s.threads[t]) && s'.threads[t].Outside? && !TrySucceeds(s, s', t) ==>
              if s.threads[t].Loading? then s.count <= 0 else s.count != s.threads[t].seen
  {
  }

  // A wait goes on until it returns: from its tries to the slow path, and from there to sleep.
  lemma WaitStaysWaiting(s: State, s': State, t: nat)
    requires t < |s.threads| && Step(s, s', t) && InWait(s.threads[t])
    ensures t < |s'.threads| && (InWait(s'.threads[t]) || s'.threads[t].Outside?)
  {
  }

  // The waits that have returned, and the tryWaits that were true, in the first i steps of a run.
  function Returned(run: seq<State>, who: seq<nat>, i: nat): nat
    requires i <= |who| && |run| == |who| + 1
  {
    if i == 0 then 0
    else
      Returned(run, who, i - 1)
      + (if WaitReturns(run[i - 1], run[i], who[i - 1]) || TrySucceeds(run[i - 1], run[i], who[i - 1]) then 1 else 0)
  }

  /**
   Over every run: the waits that have returned and the tryWaits that were true are exactly those
   that took a unit, so together they are never more than the units there have been.
   */
  lemma {:induction false} EveryReturnTookAUnit(run: seq<State>, who: seq<nat>, initial: nat, threads: nat, i: nat)
    requires IsRun(run, who, initial, threads) && i <= |who|
    ensures Returned(run, who, i) == run[i].completed <= initial + run[i].signalled
  {
    hide Step, Inv, WaitReturns, TrySucceeds;
    RunInv(run, who, initial, threads, i);
    CompletedBound(run[i], initial);
    if i > 0 {
      EveryReturnTookAUnit(run, who, initial, threads, i - 1);
      assert Step(run[i - 1], run[i - 1 + 1], who[i - 1]);
      UnitsTaken(run[i - 1], run[i], who[i - 1]);
    }
  }

  lemma CompletedBound(s: State, initial: nat)
    requires Inv(s, initial)
    ensures s.completed <= initial + s.signalled
  {
  }

  // A wait tries 10001 times before it subtracts, two steps a try; a tryWait tries once.
  lemma WaitIsShort(th: Thread)
    requires Begins(th) && !th.Adding?
    ensures Remaining(th) == if th.blocking then 2 * 10001 + 1 else 2 * 1 + 1
  {
  }
}
