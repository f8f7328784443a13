/** ThreadsafeQueue: the operations under its lock. Items go in at the front and come out at the back. */
module ThreadsafeQueue {
  import opened Arithmetic

  function Reversed<T>(s: seq<T>): (r: seq<T>)
    ensures |r| == |s|
    ensures forall i :: 0 <= i < |s| ==> r[i] == s[|s| - 1 - i]
  {
    if s == [] then [] else Reversed(s[1..]) + [s[0]]
  }

  // What goes in at the front comes last in order; what stands at the back comes first.
  lemma {:induction false} ReversedFront<T>(s: seq<T>, x: T)
    ensures Reversed([x] + s) == Reversed(s) + [x]
  {
    assert ([x] + s)[1..] == s;
  }

  lemma {:induction false} ReversedBack<T>(s: seq<T>)
    requires s != []
    ensures Reversed(s) == [s[|s| - 1]] + Reversed(s[..|s| - 1])
  {
    hide Reversed;
    assert forall i :: 0 <= i < |s| ==> Reversed(s)[i] == ([s[|s| - 1]] + Reversed(s[..|s| - 1]))[i];
  }

  class ThreadsafeQueue<T(0)> {
    var internalQueue: seq<T>
    var size: nat

    // The items in the order in which they came.
    ghost function Contents(): seq<T>
      reads this
    {
      Reversed(internalQueue)
    }

    ghost predicate Valid()
      reads this
    {
      size == |internalQueue|
    }

    constructor ()
      ensures Valid() && Contents() == []
    {
      internalQueue, size := [], 0;
    }

    method Enqueue(item: T)
      requires Valid()
      modifies this
      ensures Valid() && Contents() == old(Contents()) + [item]
    {
      ReversedFront(internalQueue, item);
      internalQueue := [item] + internalQueue;
      size := size + 1;
    }

    method ActualDequeue() returns (res: T)
      requires Valid() && internalQueue != []
      modifies this
      ensures Valid() && |old(Contents())| > 0
      ensures res == old(Contents())[0] && Contents() == old(Contents())[1..]
    {
      var last := |internalQueue| - 1;
      ReversedBack(internalQueue);
      res := internalQueue[last];
      internalQueue := internalQueue[..last];
      size := size - 1;
    }

    // dequeue, once the wait for an item is over.
    method Dequeue() returns (res: T)
      requires Valid() && internalQueue != []
      modifies this
      ensures Valid() && |old(Contents())| > 0
      ensures res == old(Contents())[0] && Contents() == old(Contents())[1..]
    {
      res := ActualDequeue();
    }

    // dequeueRange, once the wait for an item is over: the oldest items, as many as there are up
    // to `count`, in order.
    method DequeueRange(count: nat, output: array<T>) returns (ret: nat)
      requires Valid() && internalQueue != [] && count <= output.Length
      modifies this, output
      ensures Valid() && ret == Min(count, |old(Contents())|)
      ensures output[..ret] == old(Contents())[..ret] && Contents() == old(Contents())[ret..]
      ensures output[ret..] == old(output[ret..])
    {
      ret := 0;
      while ret < count && internalQueue != []
        invariant Valid() && 0 <= ret <= count && ret <= |old(Contents())|
        invariant Contents() == old(Contents())[ret..]
        invariant output[..ret] == old(Contents())[..ret]
        invariant output[ret..] == old(output[..])[ret..]
        decreases count - ret
      {
        var item := ActualDequeue();
        output[ret] := item;
        ret := ret + 1;
      }
    }
  }
}
