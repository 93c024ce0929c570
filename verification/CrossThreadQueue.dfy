/**
 * CrossThreadEventQueue in place: posts append, and try_dequeue takes the oldest event of whichever producer
 * it likes, so only each producer's own order survives.
 */
module CrossThreadQueue {
  import opened Common
  import opened EventQueues

  function From<E>(events: seq<Tagged<E>>, p: nat): seq<E> {
    if events == [] then []
    else (if events[0].producer == p then [events[0].event] else []) + From(events[1..], p)
  }

  /** The oldest event of its producer. */
  predicate IsOldest<E>(events: seq<Tagged<E>>, i: nat) {
    i < |events| && forall j :: 0 <= j < i ==> events[j].producer != events[i].producer
  }

  lemma {:induction false} FromJoin<E>(a: seq<Tagged<E>>, b: seq<Tagged<E>>, p: nat)
    ensures From(a + b, p) == From(a, p) + From(b, p)
  {
    if a == [] {
      assert a + b == b;
    } else {
      assert (a + b)[1..] == a[1..] + b && (a + b)[0] == a[0];
      FromJoin(a[1..], b, p);
      Assoc(if a[0].producer == p then [a[0].event] else [], From(a[1..], p), From(b, p));
    }
  }

  lemma {:induction false} NoneFrom<E>(events: seq<Tagged<E>>, p: nat)
    requires forall j :: 0 <= j < |events| ==> events[j].producer != p
    ensures From(events, p) == []
  {
    if events != [] {
      NoneFrom(events[1..], p);
    }
  }

  /** Taking a producer's oldest event takes the head of its lane and touches no other lane. */
  lemma OldestHeadsLane<E>(events: seq<Tagged<E>>, i: nat, p: nat)
    requires IsOldest(events, i)
    ensures From(events, p) == From([events[i]], p) + From(events[..i] + events[i + 1..], p)
  {
    hide From;
    var a, x, b := events[..i], [events[i]], events[i + 1..];
    assert events == a + (x + b);
    FromJoin(a, x + b, p);
    FromJoin(x, b, p);
    FromJoin(a, b, p);
    if p == events[i].producer {
      NoneFrom(a, p);
    } else {
      NoneFrom(x, p);
    }
  }

  class Dispatcher<E> {
    var queued: seq<Tagged<E>>

    constructor ()
      ensures queued == []
    {
      queued := [];
    }

    method Enqueue(event: Tagged<E>)
      modifies this
      ensures queued == old(queued) + [event]
    {
      queued := queued + [event];
    }
  }

  class CrossThreadEventQueue<E> {
    var events: seq<Tagged<E>>

    constructor ()
      ensures events == []
    {
      events := [];
    }

    method Post(event: Tagged<E>)
      modifies this
      ensures events == old(events) + [event]
    {
      events := events + [event];
    }

    method TryDequeue() returns (event: Option<Tagged<E>>)
      modifies this
      ensures event.None? <==> old(events) == []
      ensures event.None? ==> events == []
      ensures event.Some? ==> exists i: nat :: IsOldest(old(events), i) && event.value == old(events)[i] &&
                                               events == old(events)[..i] + old(events)[i + 1..]
    {
      if events == [] {
        return None;
      }
      assert 0 < |events| && IsOldest(events, 0);
      var i: nat :| i < |events| && IsOldest(events, i);
      event := Some(events[i]);
      events := events[..i] + events[i + 1..];
    }

    /** However many of the posts other threads are about to make get in before something else happens. */
    method Arrive(arriving: seq<Tagged<E>>, landed: nat) returns (more: nat)
      requires landed <= |arriving|
      modifies this
      ensures landed <= more <= |arriving| && events == old(events) + arriving[landed..more]
    {
      var until: nat := *;
      more := landed;
      while more < until && more < |arriving|
        invariant landed <= more <= |arriving| && events == old(events) + arriving[landed..more]
        decreases |arriving| - more
      {
        Post(arriving[more]);
        more := more + 1;
      }
    }

    /**
     * Everything queued, and whatever other threads post before the queue is seen empty, goes to the
     * dispatcher, each producer's events in its own order.
     */
    method DrainInto(dispatcher: Dispatcher<E>, arriving: seq<Tagged<E>>) returns (landed: nat)
      modifies this, dispatcher
      ensures events == [] && landed <= |arriving|
      ensures |dispatcher.queued| == old(|dispatcher.queued| + |events|) + landed
      ensures forall p: nat ::
                From(dispatcher.queued, p) == old(From(dispatcher.queued, p)) + (old(From(events, p)) + From(arriving[..landed], p))
    {
      ghost var start, all := dispatcher.queued, events;
      landed := 0;
      var draining := true;
      while draining
        invariant landed <= |arriving| && (!draining ==> events == [])
        invariant |dispatcher.queued| + |events| == |start| + |all| + landed
        invariant Conserved(start, all, arriving[..landed], dispatcher.queued, events)
        decreases |arriving| - landed, |events|, draining
      {
        ghost var queued, was, had := dispatcher.queued, landed, events;
        landed := Arrive(arriving, landed);
        ArrivalsConserve(start, all, arriving[..was], queued, had, arriving[was..landed]);
        assert arriving[..was] + arriving[was..landed] == arriving[..landed];
        ghost var left := events;
        var event := TryDequeue();
        if event.Some? {
          dispatcher.Enqueue(event.value);
          ghost var i: nat :| IsOldest(left, i) && event.value == left[i] && events == left[..i] + left[i + 1..];
          DequeueConserves(start, all, arriving[..landed], queued, left, i);
        } else {
          draining := false;
        }
      }
      AllDrained(start, all, arriving[..landed], dispatcher.queued);
    }
  }

  /** Each producer's events are in the dispatcher and the queue, in order, and nothing else is. */
  ghost predicate Conserved<E>(start: seq<Tagged<E>>, all: seq<Tagged<E>>, came: seq<Tagged<E>>, queued: seq<Tagged<E>>,
                               events: seq<Tagged<E>>) {
    forall p: nat :: From(queued, p) + From(events, p) == From(start, p) + (From(all, p) + From(came, p))
  }

  lemma ArrivalsConserve<E>(start: seq<Tagged<E>>, all: seq<Tagged<E>>, came: seq<Tagged<E>>, queued: seq<Tagged<E>>,
                   events: seq<Tagged<E>>, more: seq<Tagged<E>>)
    requires Conserved(start, all, came, queued, events)
    ensures Conserved(start, all, came + more, queued, events + more)
  {
    hide From;
    forall p: nat ensures From(queued, p) + From(events + more, p) == From(start, p) + (From(all, p) + From(came + more, p)) {
      FromJoin(events, more, p);
      FromJoin(came, more, p);
      Assoc(From(queued, p), From(events, p), From(more, p));
      Assoc(From(start, p), From(all, p) + From(came, p), From(more, p));
      Assoc(From(all, p), From(came, p), From(more, p));
    }
  }

  lemma DequeueConserves<E>(start: seq<Tagged<E>>, all: seq<Tagged<E>>, came: seq<Tagged<E>>, queued: seq<Tagged<E>>,
                    events: seq<Tagged<E>>, i: nat)
    requires Conserved(start, all, came, queued, events) && IsOldest(events, i)
    ensures Conserved(start, all, came, queued + [events[i]], events[..i] + events[i + 1..])
  {
    hide From;
    Split(queued, events, i);
    forall p: nat
      ensures From(queued + [events[i]], p) + From(events[..i] + events[i + 1..], p) == From(start, p) + (From(all, p) + From(came, p))
    {
      FromJoin(queued, [events[i]], p);
      assert From(queued, p) + From(events, p) == From(start, p) + (From(all, p) + From(came, p));
    }
  }

  lemma AllDrained<E>(start: seq<Tagged<E>>, all: seq<Tagged<E>>, came: seq<Tagged<E>>, queued: seq<Tagged<E>>)
    requires Conserved(start, all, came, queued, [])
    ensures forall p: nat :: From(queued, p) == From(start, p) + (From(all, p) + From(came, p))
  {
    forall p: nat ensures From(queued, p) == From(start, p) + (From(all, p) + From(came, p)) {
      assert From<E>([], p) == [] && From(queued, p) + [] == From(queued, p);
    }
  }

  lemma Split<E>(queued: seq<Tagged<E>>, events: seq<Tagged<E>>, i: nat)
    requires IsOldest(events, i)
    ensures forall p: nat :: From(queued, p) + From([events[i]], p) + From(events[..i] + events[i + 1..], p) ==
                             From(queued, p) + From(events, p)
  {
    hide From;
    forall p: nat
      ensures From(queued, p) + From([events[i]], p) + From(events[..i] + events[i + 1..], p) == From(queued, p) + From(events, p)
    {
      OldestHeadsLane(events, i, p);
      Assoc(From(queued, p), From([events[i]], p), From(events[..i] + events[i + 1..], p));
    }
  }
}
