/** The queues between threads: the event bus and the injection queue of every driver.  Each method
    body is one critical section of the queue's mutex. */
module AgentQueue {
  import opened Common

  class Fifo<T> {
    var queue: seq<T>
    ghost var pushed: seq<T>
    ghost var taken: seq<T>

    /** Nothing is lost, duplicated or reordered. */
    ghost predicate Valid()
      reads this
    {
      taken + queue == pushed
    }

    constructor ()
      ensures Valid() && pushed == [] && taken == []
    {
      queue, pushed, taken := [], [], [];
    }

    /** `post` and `inject`. */
    method Push(x: T)
      requires Valid()
      modifies this
      ensures Valid() && pushed == old(pushed) + [x] && taken == old(taken)
    {
      queue := queue + [x];
      pushed := pushed + [x];
    }

    method PushAll(xs: seq<T>)
      requires Valid()
      modifies this
      ensures Valid() && pushed == old(pushed) + xs && taken == old(taken)
    {
      for i := 0 to |xs|
        invariant Valid() && pushed == old(pushed) + xs[..i] && taken == old(taken)
      {
        Push(xs[i]);
      }
    }

    /** `next_injection`: the oldest element, if any. */
    method TryPop() returns (r: Option<T>)
      requires Valid()
      modifies this
      ensures Valid() && pushed == old(pushed)
      ensures r.None? <==> old(taken) == pushed
      ensures taken == old(taken) + if r.Some? then [r.value] else []
      ensures r.Some? ==> |old(taken)| < |pushed| && r.value == pushed[|old(taken)|]
    {
      if queue == [] {
        return None;
      }
      r := Some(queue[0]);
      taken := taken + [queue[0]];
      queue := queue[1..];
    }

    /** `wait_next`, once the wait is over. */
    method WaitNext() returns (x: T)
      requires Valid() && taken != pushed
      modifies this
      ensures Valid() && pushed == old(pushed) && taken == old(taken) + [x]
    {
      x := queue[0];
      taken := taken + [x];
      queue := queue[1..];
    }

    /** `drain`: everything queued now, in order. */
    method Drain() returns (out: seq<T>)
      requires Valid()
      modifies this
      ensures Valid() && pushed == old(pushed)
      ensures taken == old(taken) + out && taken == pushed
    {
      out := [];
      while queue != []
        invariant Valid() && pushed == old(pushed) && taken == old(taken) + out
        decreases |queue|
      {
        out := out + [queue[0]];
        taken := taken + [queue[0]];
        queue := queue[1..];
      }
    }
  }
}
