/** SpscEventQueue and its two self-checks, with the producer thread running whenever the scheduler lets it. */
module SpscQueue {
  import opened Common

  function Count(from: nat, to: nat): (s: seq<int>)
    requires from <= to
    ensures |s| == to - from && forall i :: 0 <= i < |s| ==> s[i] == from + i
  {
    seq(to - from, i => from + i)
  }

  lemma CountOn(from: nat, mid: nat, to: nat)
    requires from <= mid <= to
    ensures Count(from, mid) + Count(mid, to) == Count(from, to)
  {
  }

  lemma OneMoved(before: seq<int>, items: seq<int>, more: seq<int>)
    requires items != []
    ensures (before + [items[0]]) + (items[1..] + more) == (before + items) + more
  {
    assert items == [items[0]] + items[1..];
  }

  class SpscEventQueue {
    var items: seq<int>

    constructor ()
      ensures items == []
    {
      items := [];
    }

    method Post(event: int)
      modifies this
      ensures items == old(items) + [event]
    {
      items := items + [event];
    }

    method TryDequeue() returns (event: Option<int>)
      modifies this
      ensures old(items) == [] ==> event == None && items == []
      ensures old(items) != [] ==> event == Some(old(items)[0]) && items == old(items)[1..]
    {
      if items == [] {
        return None;
      }
      event := Some(items[0]);
      items := items[1..];
    }
  }

  /** A thread posting 0, 1, ... up to a limit. */
  class Producer {
    var next: nat
    const limit: nat

    constructor (limit: nat)
      ensures next == 0 && this.limit == limit
    {
      this.next, this.limit := 0, limit;
    }

    /** However far the scheduler lets the thread get before something else happens. */
    method Proceed(queue: SpscEventQueue)
      requires next <= limit
      modifies this, queue
      ensures old(next) <= next <= limit
      ensures queue.items == old(queue.items) + Count(old(next), next)
    {
      var until: nat := *;
      while next < until && next < limit
        invariant old(next) <= next <= limit
        invariant queue.items == old(queue.items) + Count(old(next), next)
        decreases limit - next
      {
        queue.Post(next);
        next := next + 1;
      }
    }

    /** join(): the thread runs to its end. */
    method Join(queue: SpscEventQueue)
      requires next <= limit
      modifies this, queue
      ensures next == limit
      ensures queue.items == old(queue.items) + Count(old(next), limit)
    {
      while next < limit
        invariant old(next) <= next <= limit
        invariant queue.items == old(queue.items) + Count(old(next), next)
      {
        queue.Post(next);
        next := next + 1;
      }
    }
  }

  /** drain_into() while the producer keeps posting: dequeues until the queue is seen empty. */
  method DrainInto(queue: SpscEventQueue, producer: Producer, pending: seq<int>) returns (out: seq<int>)
    requires producer.next <= producer.limit && |queue.items| <= producer.next
    modifies queue, producer
    ensures old(producer.next) <= producer.next <= producer.limit
    ensures queue.items == [] && out == pending + old(queue.items) + Count(old(producer.next), producer.next)
  {
    out := pending;
    producer.Proceed(queue);
    Assoc(pending, old(queue.items), Count(old(producer.next), producer.next));
    hide Count;
    while queue.items != []
      invariant old(producer.next) <= producer.next <= producer.limit
      invariant out + queue.items == pending + old(queue.items) + Count(old(producer.next), producer.next)
      decreases producer.limit - producer.next, |queue.items|
    {
      ghost var n, items, before := producer.next, queue.items, out;
      var event := queue.TryDequeue();
      out := out + [event.value];
      producer.Proceed(queue);
      OneMoved(before, items, Count(n, producer.next));
      CountOn(old(producer.next), n, producer.next);
      Assoc(pending + old(queue.items), Count(old(producer.next), n), Count(n, producer.next));
    }
    assert out + [] == out;
  }

  /** The comparison both checks end with. */
  method Verdict(received: seq<int>, eventCount: nat) returns (ok: bool)
    ensures ok <==> received == Count(0, eventCount)
  {
    if |received| != eventCount {
      return false;
    }
    for i := 0 to eventCount
      invariant forall k :: 0 <= k < i ==> received[k] == k
    {
      if received[i] != i {
        return false;
      }
    }
    ok := true;
  }

  /**
   * run_spsc_event_queue_self_check: true for every count; a negative one makes reserve() throw, which is
   * what no result stands for.
   */
  method RunSelfCheck(eventCount: int) returns (ok: Option<bool>, received: seq<int>)
    ensures ok == if eventCount < 0 then None else Some(true)
    ensures eventCount >= 0 ==> received == Count(0, eventCount)
  {
    var queue := new SpscEventQueue();
    var producer := new Producer(if eventCount < 0 then 0 else eventCount);
    producer.Join(queue);
    received := [];
    if eventCount < 0 {
      return None, received;
    }
    received := DrainInto(queue, producer, received);
    assert received == Count(0, eventCount);
    var verdict := Verdict(received, eventCount);
    ok := Some(verdict);
  }

  /**
   * run_spsc_event_queue_concurrent_self_check: drains while the producer runs. `patience` is how many turns
   * pass before the clock is past the deadline. True exactly when it does not time out.
   */
  method RunConcurrentSelfCheck(eventCount: int, patience: nat) returns (ok: Option<bool>, timedOut: bool, received: seq<int>)
    ensures eventCount < 0 ==> ok == None
    ensures eventCount >= 0 ==> ok == Some(!timedOut) && received <= Count(0, eventCount)
    ensures eventCount >= 0 ==> (timedOut <==> |received| < eventCount)
  {
    timedOut, received := false, [];
    if eventCount < 0 {
      return None, false, received;
    }
    var queue := new SpscEventQueue();
    var producer := new Producer(eventCount);
    var turns := 0;
    while |received| < eventCount
      invariant producer.next <= producer.limit == eventCount
      invariant queue.items == [] && received == Count(0, producer.next)
      invariant turns <= patience && !timedOut
      decreases if |received| < eventCount then 1 + patience - turns else 0
    {
      ghost var n := producer.next;
      received := DrainInto(queue, producer, received);
      CountOn(0, n, producer.next);
      if |received| < eventCount {
        if turns == patience {
          timedOut := true;
          break;
        }
        turns := turns + 1;
      }
    }
    ghost var n := producer.next;
    producer.Join(queue);
    CountOn(0, n, eventCount);
    if timedOut {
      return Some(false), true, received;
    }
    received := DrainInto(queue, producer, received);
    CountOn(0, n, producer.next);
    assert received == Count(0, eventCount);
    var verdict := Verdict(received, eventCount);
    ok := Some(verdict);
  }
}
