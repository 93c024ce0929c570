/**
 * Events crossing from any number of producer threads to the dispatcher: each producer's events form a lane,
 * the frame thread drains lanes in any order into the dispatcher, and the next frame's update delivers.
 */
module EventQueues {
  import opened Common

  datatype Tagged<+E> = Tagged(producer: nat, event: E)

  /** An event waiting in the dispatcher since a frame, and one its sinks have received. */
  datatype Held<+E> = Held(tagged: Tagged<E>, drained: nat)
  datatype Arrived<+E> = Arrived(tagged: Tagged<E>, drained: nat, delivered: nat)

  /** `posted` is history: everything each producer ever posted. */
  datatype System<E> = System(
    lanes: map<nat, seq<E>>, dispatcher: seq<Held<E>>, delivered: seq<Arrived<E>>,
    frame: nat, draining: bool, posted: map<nat, seq<E>>)

  /** A drain may stop at any time: a lock-free queue may look empty while a post is in progress. */
  datatype Step<+E> = Post(producer: nat, event: E) | Frame | Dequeue(producer: nat) | EndDrain

  function Lane<E>(lanes: map<nat, seq<E>>, p: nat): seq<E> {
    if p in lanes then lanes[p] else []
  }

  function Deliveries<E>(held: seq<Held<E>>, frame: nat): (out: seq<Arrived<E>>)
    ensures |out| == |held| && forall i :: 0 <= i < |held| ==> out[i] == Arrived(held[i].tagged, held[i].drained, frame)
  {
    seq(|held|, i requires 0 <= i < |held| => Arrived(held[i].tagged, held[i].drained, frame))
  }

  function Next<E>(s: System<E>, step: Step<E>): System<E> {
    match step
    case Post(p, e) =>
      s.(lanes := s.lanes[p := Lane(s.lanes, p) + [e]], posted := s.posted[p := Lane(s.posted, p) + [e]])
    case Frame =>
      if s.draining then s
      else s.(delivered := s.delivered + Deliveries(s.dispatcher, s.frame + 1), dispatcher := [], frame := s.frame + 1, draining := true)
    case Dequeue(p) =>
      if !s.draining || Lane(s.lanes, p) == [] then s
      else s.(lanes := s.lanes[p := s.lanes[p][1..]], dispatcher := s.dispatcher + [Held(Tagged(p, s.lanes[p][0]), s.frame)])
    case EndDrain => s.(draining := false)
  }

  function Run<E>(s: System<E>, steps: seq<Step<E>>): System<E>
    decreases |steps|
  {
    if steps == [] then s else Run(Next(s, steps[0]), steps[1..])
  }

  /** One producer's events among those waiting, and among those delivered, in order. */
  function HeldFrom<E>(held: seq<Held<E>>, p: nat): seq<E> {
    if held == [] then []
    else (if held[0].tagged.producer == p then [held[0].tagged.event] else []) + HeldFrom(held[1..], p)
  }

  function ArrivedFrom<E>(arrived: seq<Arrived<E>>, p: nat): seq<E> {
    if arrived == [] then []
    else (if arrived[0].tagged.producer == p then [arrived[0].tagged.event] else []) + ArrivedFrom(arrived[1..], p)
  }

  lemma {:induction false} HeldJoin<E>(a: seq<Held<E>>, b: seq<Held<E>>, p: nat)
    ensures HeldFrom(a + b, p) == HeldFrom(a, p) + HeldFrom(b, p)
  {
    if a == [] {
      assert a + b == b;
    } else {
      assert (a + b)[1..] == a[1..] + b && (a + b)[0] == a[0];
      HeldJoin(a[1..], b, p);
      Assoc(if a[0].tagged.producer == p then [a[0].tagged.event] else [], HeldFrom(a[1..], p), HeldFrom(b, p));
    }
  }

  lemma {:induction false} ArrivedJoin<E>(a: seq<Arrived<E>>, b: seq<Arrived<E>>, p: nat)
    ensures ArrivedFrom(a + b, p) == ArrivedFrom(a, p) + ArrivedFrom(b, p)
  {
    if a == [] {
      assert a + b == b;
    } else {
      assert (a + b)[1..] == a[1..] + b && (a + b)[0] == a[0];
      ArrivedJoin(a[1..], b, p);
      Assoc(if a[0].tagged.producer == p then [a[0].tagged.event] else [], ArrivedFrom(a[1..], p), ArrivedFrom(b, p));
    }
  }

  lemma {:induction false} DeliveriesKeepLane<E>(held: seq<Held<E>>, frame: nat, p: nat)
    ensures ArrivedFrom(Deliveries(held, frame), p) == HeldFrom(held, p)
  {
    if held != [] {
      assert Deliveries(held, frame)[1..] == Deliveries(held[1..], frame);
      DeliveriesKeepLane(held[1..], frame, p);
    }
  }

  /** One producer's events, wherever they are: delivered, then waiting, then queued. */
  function Trail<E>(s: System<E>, p: nat): seq<E> {
    ArrivedFrom(s.delivered, p) + HeldFrom(s.dispatcher, p) + Lane(s.lanes, p)
  }

  ghost predicate Inv<E>(s: System<E>) {
    && (forall p: nat :: Trail(s, p) == Lane(s.posted, p))
    && (forall i :: 0 <= i < |s.dispatcher| ==> s.dispatcher[i].drained == s.frame)
    && (forall i :: 0 <= i < |s.delivered| ==> s.delivered[i].delivered == s.delivered[i].drained + 1)
  }

  lemma TrailStep<E>(s: System<E>, step: Step<E>, p: nat)
    requires Trail(s, p) == Lane(s.posted, p)
    ensures Trail(Next(s, step), p) == Lane(Next(s, step).posted, p)
  {
    hide ArrivedFrom, HeldFrom;
    var t := Next(s, step);
    match step {
      case Post(q, e) =>
        if p == q {
          Assoc(ArrivedFrom(s.delivered, p) + HeldFrom(s.dispatcher, p), Lane(s.lanes, p), [e]);
        }
      case Frame =>
        if !s.draining {
          ArrivedJoin(s.delivered, Deliveries(s.dispatcher, s.frame + 1), p);
          DeliveriesKeepLane(s.dispatcher, s.frame + 1, p);
          HeldNone<E>(p);
          assert t.dispatcher == [];
          assert ArrivedFrom(t.delivered, p) + [] == ArrivedFrom(s.delivered, p) + HeldFrom(s.dispatcher, p);
        }
      case Dequeue(q) =>
        if s.draining && Lane(s.lanes, q) != [] {
          var h := Held(Tagged(q, s.lanes[q][0]), s.frame);
          HeldJoin(s.dispatcher, [h], p);
          HeldOne(h, p);
          if p == q {
            var a, b, lane := ArrivedFrom(s.delivered, p), HeldFrom(s.dispatcher, p), s.lanes[p];
            assert lane == [lane[0]] + lane[1..];
            Assoc(a, b, [lane[0]]);
            Assoc(a + b, [lane[0]], lane[1..]);
          } else {
            assert HeldFrom(s.dispatcher, p) + [] == HeldFrom(s.dispatcher, p);
          }
        }
      case EndDrain =>
    }
  }

  lemma HeldNone<E>(p: nat)
    ensures HeldFrom<E>([], p) == []
  {
  }

  lemma HeldOne<E>(h: Held<E>, p: nat)
    ensures HeldFrom([h], p) == if h.tagged.producer == p then [h.tagged.event] else []
  {
    assert [h][1..] == [];
  }

  lemma InvKept<E>(s: System<E>, step: Step<E>)
    requires Inv(s)
    ensures Inv(Next(s, step))
  {
    hide Trail;
    forall p: nat ensures Trail(Next(s, step), p) == Lane(Next(s, step).posted, p) {
      TrailStep(s, step, p);
    }
  }

  lemma {:induction false} InvHolds<E>(s: System<E>, steps: seq<Step<E>>)
    requires Inv(s)
    ensures Inv(Run(s, steps))
    decreases |steps|
  {
    hide Inv, Next;
    if steps != [] {
      InvKept(s, steps[0]);
      InvHolds(Next(s, steps[0]), steps[1..]);
    }
  }

  predicate IsEmpty<E(==)>(s: System<E>) {
    s.lanes == map[] && s.dispatcher == [] && s.delivered == [] && s.posted == map[]
  }

  /**
   * Under any interleaving of posts, frames and drains, each producer's posted events are exactly those
   * delivered, then those waiting, then those queued, in the order it posted them; and every event is
   * delivered one frame after the frame that drained it.
   */
  lemma NothingLostOrReordered<E>(s: System<E>, steps: seq<Step<E>>, p: nat)
    requires IsEmpty(s)
    ensures var t := Run(s, steps);
            && Lane(t.posted, p) == ArrivedFrom(t.delivered, p) + HeldFrom(t.dispatcher, p) + Lane(t.lanes, p)
            && forall i :: 0 <= i < |t.delivered| ==> t.delivered[i].delivered == t.delivered[i].drained + 1
  {
    hide Run;
    assert forall q: nat :: Trail(s, q) == Lane(s.posted, q);
    InvHolds(s, steps);
    assert Trail(Run(s, steps), p) == Lane(Run(s, steps).posted, p);
  }

  /** Once a drain has emptied a producer's lane, the next frame has delivered everything it posted. */
  lemma DrainedIsDeliveredNext<E>(s: System<E>, steps: seq<Step<E>>, p: nat)
    requires IsEmpty(s) && !Run(s, steps).draining && Lane(Run(s, steps).lanes, p) == []
    ensures var t := Next(Run(s, steps), Step.Frame); ArrivedFrom(t.delivered, p) == Lane(t.posted, p)
  {
    hide Run, ArrivedFrom, HeldFrom;
    NothingLostOrReordered(s, steps, p);
    var u := Run(s, steps);
    ArrivedJoin(u.delivered, Deliveries(u.dispatcher, u.frame + 1), p);
    DeliveriesKeepLane(u.dispatcher, u.frame + 1, p);
    assert ArrivedFrom(u.delivered, p) + HeldFrom(u.dispatcher, p) + [] == ArrivedFrom(u.delivered, p) + HeldFrom(u.dispatcher, p);
  }
}
