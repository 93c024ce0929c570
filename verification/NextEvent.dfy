/**
 * NextEventAwaiter and the coroutine that awaits it: set() resumes the waiting coroutine inside itself, and
 * the resumed coroutine resets the event and waits again before set() returns.
 */
module NextEvent {

  /**
   * `last` is empty until an event has fired. `wanted` is how many more events the consumer awaits, and
   * `received` what its awaits returned so far, over all its batches.
   */
  datatype State<E> = State(isSet: bool, waiting: bool, last: seq<E>, wanted: nat, received: seq<E>)

  datatype Step<+E> = Fire(event: E) | Consume(count: nat)

  class NextEventAwaiter<E> {
    var isSet: bool
    var waiting: bool
    var last: seq<E>
    var wanted: nat
    var received: seq<E>

    function View(): State<E>
      reads this
    {
      State(isSet, waiting, last, wanted, received)
    }

    constructor ()
      ensures View() == State(false, false, [], 0, [])
    {
      isSet, waiting, last, wanted, received := false, false, [], 0, [];
    }

    /** ready_.reset(). */
    method Reset()
      modifies this
      ensures View() == old(View()).(isSet := false)
    {
      isSet := false;
    }

    /** next() up to its suspension: reset, then wait unless set. */
    method Next()
      modifies this
      ensures View() == old(View()).(isSet := false, waiting := true)
    {
      Reset();
      if !isSet {
        waiting := true;
      }
    }

    /** The consumer resumed: next() returns the last value, and the loop awaits again if it wants more. */
    method Resume()
      requires last != [] && wanted > 0
      modifies this
      ensures wanted == old(wanted) - 1 && received == old(received) + [old(last)[0]] && last == old(last)
      ensures if wanted > 0 then !isSet && waiting else isSet == old(isSet) && waiting == old(waiting)
    {
      received := received + [last[0]];
      wanted := wanted - 1;
      if wanted > 0 {
        Next();
      }
    }

    /** ready_.set(): only the change from unset to set resumes, and it resumes whoever waited before it. */
    method Set()
      requires last != [] && (waiting ==> wanted > 0)
      modifies this
      ensures View() ==
              if old(isSet) || !old(waiting) then old(View()).(isSet := true)
              else
                var more := old(wanted) > 1;
                State(!more, more, old(last), old(wanted) - 1, old(received) + [old(last)[0]])
    {
      if !isSet {
        isSet := true;
        if waiting {
          waiting := false;
          Resume();
        }
      }
    }

    /** on_event: remember the event, then set. */
    method OnEvent(event: E)
      requires waiting ==> wanted > 0
      modifies this
      ensures View() == Fired(old(View()), event)
    {
      last := [event];
      Set();
    }

    /** A consumer task that awaits next() `count` times, run until it suspends or ends. */
    method Consume(count: nat)
      requires !waiting
      modifies this
      ensures View() == Consuming(old(View()), count)
    {
      wanted := count;
      if count > 0 {
        Next();
      }
    }
  }

  function Fired<E>(s: State<E>, event: E): State<E> {
    if s.isSet || !s.waiting || s.wanted == 0 then s.(last := [event], isSet := true)
    else State(s.wanted == 1, s.wanted > 1, [event], s.wanted - 1, s.received + [event])
  }

  function Consuming<E>(s: State<E>, count: nat): State<E> {
    if count == 0 then s.(wanted := 0) else s.(wanted := count, isSet := false, waiting := true)
  }

  /** A second consumer while one waits is outside the single-consumer rule; such a step does nothing. */
  function Next<E>(s: State<E>, step: Step<E>): State<E> {
    match step
    case Fire(event) => Fired(s, event)
    case Consume(count) => if s.waiting then s else Consuming(s, count)
  }

  function Run<E>(s: State<E>, steps: seq<Step<E>>): State<E>
    decreases |steps|
  {
    if steps == [] then s else Run(Next(s, steps[0]), steps[1..])
  }

  /** A waiting consumer has an unset event and wants more; an idle one wants nothing. */
  predicate Inv<E>(s: State<E>) {
    (s.waiting ==> !s.isSet) && (s.waiting <==> s.wanted > 0)
  }

  lemma {:induction false} InvHolds<E>(s: State<E>, steps: seq<Step<E>>)
    requires Inv(s)
    ensures Inv(Run(s, steps))
    decreases |steps|
  {
    if steps != [] {
      InvHolds(Next(s, steps[0]), steps[1..]);
    }
  }

  function Fires<E>(events: seq<E>): seq<Step<E>> {
    seq(|events|, i requires 0 <= i < |events| => Fire(events[i]))
  }

  function First<E>(events: seq<E>, n: nat): seq<E> {
    if |events| <= n then events else events[..n]
  }

  /**
   * A consumer that wants `wanted` events and waits receives exactly the first that many of those fired next,
   * in order, and then waits for the rest or has ended.
   */
  lemma {:induction false} ReceivesExactlyNext<E>(s: State<E>, events: seq<E>)
    requires Inv(s)
    ensures var t := Run(s, Fires(events));
            && t.received == s.received + First(events, s.wanted)
            && t.wanted == s.wanted - |First(events, s.wanted)| && Inv(t)
    decreases |events|
  {
    if events == [] {
      assert s.received + [] == s.received;
    } else {
      var s' := Next(s, Fire(events[0]));
      assert Fires(events)[1..] == Fires(events[1..]);
      ReceivesExactlyNext(s', events[1..]);
      if s.wanted > 0 {
        assert First(events, s.wanted) == [events[0]] + First(events[1..], s.wanted - 1);
        assert s.received + First(events, s.wanted) == (s.received + [events[0]]) + First(events[1..], s.wanted - 1);
      } else {
        assert First(events[1..], 0) == [] && First(events, 0) == [];
      }
    }
  }

  /**
   * Whatever happened before, a consumer started after `before` that awaits n times receives exactly the first
   * min(n, fired) of the events fired after it suspends: none stale, skipped or repeated.
   */
  lemma AwaitsExactly<E>(before: seq<Step<E>>, n: nat, events: seq<E>)
    requires !Run(State(false, false, [], 0, []), before).waiting
    ensures var s := Run<E>(State(false, false, [], 0, []), before);
            Run(Next(s, Step.Consume(n)), Fires(events)).received == s.received + First(events, n)
  {
    var start: State<E> := State(false, false, [], 0, []);
    InvHolds(start, before);
    ReceivesExactlyNext(Next(Run(start, before), Step.Consume(n)), events);
  }

  /**
   * Without the reset a set event would stay set and the next await would not suspend; with it, a waiting
   * consumer's event is always unset, so no event fired while it waits is missed.
   */
  lemma FiringAlwaysResumes<E>(steps: seq<Step<E>>, event: E)
    ensures var s := Run<E>(State(false, false, [], 0, []), steps);
            s.waiting ==> Next(s, Fire(event)).received == s.received + [event]
  {
    InvHolds<E>(State(false, false, [], 0, []), steps);
  }
}
