/**
 * The exponential approach and the system that runs it on every follower, over exact reals. The retained
 * fraction e^-x is any function that is positive, at most 1, and multiplicative.
 */
module Approach {

  datatype Point = Point(x: real, y: real, z: real)

  datatype Pull = Pull(target: Point, delta: real)

  predicate IsFraction(retained: real -> real, a: real) {
    a >= 0.0 ==> 0.0 < retained(a) <= 1.0
  }

  predicate Multiplies(retained: real -> real, a: real, b: real) {
    a >= 0.0 && b >= 0.0 ==> retained(a + b) == retained(a) * retained(b)
  }

  ghost predicate IsRetained(retained: real -> real) {
    (forall a :: IsFraction(retained, a)) && (forall a, b :: Multiplies(retained, a, b))
  }

  /** glm::mix. */
  function MixOne(from: real, to: real, factor: real): real {
    from * (1.0 - factor) + to * factor
  }

  function Mix(from: Point, to: Point, factor: real): Point {
    Point(MixOne(from.x, to.x, factor), MixOne(from.y, to.y, factor), MixOne(from.z, to.z, factor))
  }

  /** The part of the distance still left after a step. */
  function Left(rate: real, delta: real, retained: real -> real): real {
    retained(rate * delta)
  }

  function Stepped(at: Point, target: Point, rate: real, delta: real, retained: real -> real): Point {
    if rate <= 0.0 || delta <= 0.0 then at else Mix(at, target, 1.0 - Left(rate, delta, retained))
  }

  lemma MixDistance(from: real, to: real, left: real)
    ensures to - MixOne(from, to, 1.0 - left) == (to - from) * left
  {
  }

  /** What a mix leaves of the distance, coordinate by coordinate. */
  lemma DistanceShrinks(from: Point, to: Point, left: real)
    ensures var now := Mix(from, to, 1.0 - left);
            && to.x - now.x == (to.x - from.x) * left
            && to.y - now.y == (to.y - from.y) * left
            && to.z - now.z == (to.z - from.z) * left
  {
    hide MixOne;
    MixDistance(from.x, to.x, left);
    MixDistance(from.y, to.y, left);
    MixDistance(from.z, to.z, left);
  }

  /** Of each coordinate's distance to the target this fraction is left. */
  predicate LeavesOf(was: Point, now: Point, target: Point, left: real) {
    && target.x - now.x == (target.x - was.x) * left
    && target.y - now.y == (target.y - was.y) * left
    && target.z - now.z == (target.z - was.z) * left
  }

  lemma StepDistance(at: Point, target: Point, rate: real, delta: real, retained: real -> real)
    ensures var now := Stepped(at, target, rate, delta, retained);
            if rate > 0.0 && delta > 0.0 then LeavesOf(at, now, target, retained(rate * delta)) else now == at
  {
    hide Mix, MixOne;
    DistanceShrinks(at, target, retained(rate * delta));
  }

  class Transform {
    var position: Point

    constructor (position: Point)
      ensures this.position == position
    {
      this.position := position;
    }
  }

  class Follower {
    const transform: Transform
    var target: Point
    var rate: real

    constructor (transform: Transform, target: Point, rate: real)
      ensures this.transform == transform && this.target == target && this.rate == rate
    {
      this.transform, this.target, this.rate := transform, target, rate;
    }
  }

  /** approach(): assigns transform.position in place. */
  method ApproachInPlace(transform: Transform, target: Point, rate: real, delta: real, retained: real -> real)
    modifies transform
    ensures transform.position == Stepped(old(transform.position), target, rate, delta, retained)
    ensures rate > 0.0 && delta > 0.0 ==> LeavesOf(old(transform.position), transform.position, target, retained(rate * delta))
    ensures rate <= 0.0 || delta <= 0.0 ==> transform.position == old(transform.position)
  {
    if rate <= 0.0 || delta <= 0.0 {
      return;
    }
    DistanceShrinks(transform.position, target, retained(rate * delta));
    var factor := 1.0 - retained(rate * delta);
    transform.position := Mix(transform.position, target, factor);
  }

  /** The view's entities: no two share a transform. */
  predicate Separate(view: seq<Follower>) {
    forall i, j :: 0 <= i < j < |view| ==> view[i].transform != view[j].transform
  }

  /** move_followers_toward_targets: one approach per entity with both components. */
  method MoveFollowersTowardTargets(view: seq<Follower>, delta: real, retained: real -> real)
    requires Separate(view)
    modifies set f | f in view :: f.transform
    ensures forall i :: 0 <= i < |view| ==>
              view[i].transform.position ==
              Stepped(old(view[i].transform.position), view[i].target, view[i].rate, delta, retained)
  {
    for i := 0 to |view|
      invariant forall k :: 0 <= k < i ==>
                  view[k].transform.position == Stepped(old(view[k].transform.position), view[k].target, view[k].rate, delta, retained)
      invariant forall k :: i <= k < |view| ==> view[k].transform.position == old(view[k].transform.position)
    {
      ApproachInPlace(view[i].transform, view[i].target, view[i].rate, delta, retained);
    }
  }

  // ---------------------------------------------------------------- frame-rate independence

  function Positive(delta: real): real {
    if delta <= 0.0 then 0.0 else delta
  }

  /** The time in a list of steps; steps that do not move forward count nothing. */
  function TotalTime(deltas: seq<real>): (t: real)
    ensures t >= 0.0
  {
    if deltas == [] then 0.0 else Positive(deltas[0]) + TotalTime(deltas[1..])
  }

  function AllSteps(at: Point, target: Point, rate: real, deltas: seq<real>, retained: real -> real): Point
    decreases |deltas|
  {
    if deltas == [] then at
    else AllSteps(Stepped(at, target, rate, deltas[0], retained), target, rate, deltas[1..], retained)
  }

  lemma MixTwice(from: real, to: real, p: real, q: real)
    ensures MixOne(MixOne(from, to, 1.0 - p), to, 1.0 - q) == MixOne(from, to, 1.0 - p * q)
  {
    var once := from * p + to * (1.0 - p);
    assert MixOne(from, to, 1.0 - p) == once;
    assert once * q == from * (p * q) + to * (q - p * q) by {
      assert (from * p) * q == from * (p * q);
      assert (to * (1.0 - p)) * q == to * (q - p * q);
    }
  }

  lemma MixTwicePoint(from: Point, to: Point, p: real, q: real, both: real)
    requires both == p * q
    ensures Mix(Mix(from, to, 1.0 - p), to, 1.0 - q) == Mix(from, to, 1.0 - both)
  {
    hide MixOne;
    MixTwice(from.x, to.x, p, q);
    MixTwice(from.y, to.y, p, q);
    MixTwice(from.z, to.z, p, q);
  }

  lemma TimesPositive(rate: real, a: real, b: real)
    requires rate > 0.0 && a >= 0.0 && b >= 0.0
    ensures rate * a >= 0.0 && rate * b >= 0.0 && rate * (a + b) == rate * a + rate * b
    ensures a > 0.0 ==> rate * a > 0.0
  {
  }

  lemma RetainedTogether(rate: real, a: real, b: real, retained: real -> real)
    requires IsRetained(retained) && rate > 0.0 && a > 0.0 && b > 0.0
    ensures Left(rate, a + b, retained) == Left(rate, a, retained) * Left(rate, b, retained)
  {
    TimesPositive(rate, a, b);
    assert Multiplies(retained, rate * a, rate * b);
  }

  lemma Forward(at: Point, target: Point, rate: real, delta: real, retained: real -> real)
    requires rate > 0.0 && delta > 0.0
    ensures Stepped(at, target, rate, delta, retained) == Mix(at, target, 1.0 - Left(rate, delta, retained))
  {
    hide Mix;
  }

  lemma NotForward(at: Point, target: Point, rate: real, delta: real, retained: real -> real)
    requires rate <= 0.0 || delta <= 0.0
    ensures Stepped(at, target, rate, delta, retained) == at
  {
  }

  /** One step of a and one step of b are one step of a + b. */
  lemma StepsCompose(at: Point, target: Point, rate: real, a: real, b: real, retained: real -> real)
    requires IsRetained(retained) && a >= 0.0 && b >= 0.0
    ensures Stepped(Stepped(at, target, rate, a, retained), target, rate, b, retained) == Stepped(at, target, rate, a + b, retained)
  {
    hide Mix, IsRetained, Stepped, Left;
    var once := Stepped(at, target, rate, a, retained);
    if rate > 0.0 && a > 0.0 && b > 0.0 {
      Forward(at, target, rate, a, retained);
      Forward(once, target, rate, b, retained);
      Forward(at, target, rate, a + b, retained);
      RetainedTogether(rate, a, b, retained);
      MixTwicePoint(at, target, Left(rate, a, retained), Left(rate, b, retained), Left(rate, a + b, retained));
    } else if rate > 0.0 && a > 0.0 {
      NotForward(once, target, rate, b, retained);
    } else if rate > 0.0 {
      NotForward(at, target, rate, a, retained);
    } else {
      NotForward(at, target, rate, a, retained);
      NotForward(once, target, rate, b, retained);
      NotForward(at, target, rate, a + b, retained);
    }
  }

  lemma StepIsPositive(at: Point, target: Point, rate: real, delta: real, retained: real -> real)
    ensures Stepped(at, target, rate, delta, retained) == Stepped(at, target, rate, Positive(delta), retained)
  {
  }

  /** Any list of steps lands exactly where one step of the summed time does, so the frame rate does not matter. */
  lemma {:induction false} FrameRateIndependent(at: Point, target: Point, rate: real, deltas: seq<real>, retained: real -> real)
    requires IsRetained(retained)
    ensures AllSteps(at, target, rate, deltas, retained) == Stepped(at, target, rate, TotalTime(deltas), retained)
    decreases |deltas|
  {
    hide Stepped, IsRetained;
    if deltas == [] {
      NoTime(at, target, rate, retained);
    } else {
      StepIsPositive(at, target, rate, deltas[0], retained);
      FrameRateIndependent(Stepped(at, target, rate, deltas[0], retained), target, rate, deltas[1..], retained);
      StepsCompose(at, target, rate, Positive(deltas[0]), TotalTime(deltas[1..]), retained);
    }
  }

  /**
   * After any list of steps each coordinate's distance from the target is what it was, times the fraction
   * retained over the rate times the time that has gone by; without either it has not moved.
   */
  lemma DistanceAfter(at: Point, target: Point, rate: real, deltas: seq<real>, t: real, retained: real -> real)
    requires IsRetained(retained) && t == TotalTime(deltas)
    ensures var now := AllSteps(at, target, rate, deltas, retained);
            if rate > 0.0 && t > 0.0 then LeavesOf(at, now, target, retained(rate * t)) else now == at
  {
    hide IsRetained, Stepped, AllSteps, LeavesOf;
    FrameRateIndependent(at, target, rate, deltas, retained);
    StepDistance(at, target, rate, t, retained);
  }

  lemma NoTime(at: Point, target: Point, rate: real, retained: real -> real)
    ensures Stepped(at, target, rate, 0.0, retained) == at
  {
  }

  // ---------------------------------------------------------------- no overshoot, and the box

  function Least(a: real, b: real): real {
    if a <= b then a else b
  }

  function Most(a: real, b: real): real {
    if a <= b then b else a
  }

  predicate Within(lo: real, v: real, hi: real) {
    lo <= v <= hi
  }

  predicate InBox(lo: Point, p: Point, hi: Point) {
    Within(lo.x, p.x, hi.x) && Within(lo.y, p.y, hi.y) && Within(lo.z, p.z, hi.z)
  }

  function Part(d: real, r: real): real {
    d * r
  }

  lemma MixPart(from: real, to: real, r: real)
    ensures to - MixOne(from, to, 1.0 - r) == Part(to - from, r)
  {
  }

  lemma MixBetween(from: real, to: real, r: real)
    requires 0.0 < r <= 1.0
    ensures Within(Least(from, to), MixOne(from, to, 1.0 - r), Most(from, to))
    ensures MixOne(from, to, 1.0 - r) == to <==> from == to
  {
    hide MixOne, Part;
    MixPart(from, to, r);
    ShrinksEitherWay(to - from, r);
    Between(from, to, MixOne(from, to, 1.0 - r), Part(to - from, r));
  }

  lemma Between(from: real, to: real, mixed: real, left: real)
    requires to - mixed == left && (left == 0.0 <==> to == from)
    requires if to >= from then 0.0 <= left <= to - from else to - from <= left <= 0.0
    ensures Within(Least(from, to), mixed, Most(from, to)) && (mixed == to <==> from == to)
  {
  }

  lemma ShrinksEitherWay(d: real, r: real)
    requires 0.0 < r <= 1.0
    ensures if d >= 0.0 then 0.0 <= Part(d, r) <= d else d <= Part(d, r) <= 0.0
    ensures Part(d, r) == 0.0 <==> d == 0.0
  {
    PartNegated(d, r);
    hide Part;
    if d >= 0.0 {
      Shrinks(d, r);
    } else {
      Shrinks(-d, r);
    }
  }

  lemma PartNegated(d: real, r: real)
    ensures Part(-d, r) == -Part(d, r)
  {
  }

  lemma Shrinks(d: real, r: real)
    requires 0.0 < r <= 1.0 && d >= 0.0
    ensures 0.0 <= Part(d, r) <= d && (Part(d, r) == 0.0 <==> d == 0.0)
  {
    if d > 0.0 {
      Product(d, r);
      if r < 1.0 {
        Product(d, 1.0 - r);
        assert d * (1.0 - r) == d - d * r;
      }
    }
  }

  lemma Product(a: real, b: real)
    requires a > 0.0 && b > 0.0
    ensures a * b > 0.0
  {
  }

  /** No coordinate ever passes its target: it stays between where it was and the target, and never quite arrives. */
  lemma NeverOvershoots(at: Point, target: Point, rate: real, delta: real, retained: real -> real)
    requires IsRetained(retained)
    ensures var next := Stepped(at, target, rate, delta, retained);
            && Within(Least(at.x, target.x), next.x, Most(at.x, target.x))
            && Within(Least(at.y, target.y), next.y, Most(at.y, target.y))
            && Within(Least(at.z, target.z), next.z, Most(at.z, target.z))
            && (next == target <==> at == target)
  {
    hide MixOne;
    if rate > 0.0 && delta > 0.0 {
      TimesPositive(rate, delta, 0.0);
      var r := retained(rate * delta);
      assert IsFraction(retained, rate * delta);
      MixBetween(at.x, target.x, r);
      MixBetween(at.y, target.y, r);
      MixBetween(at.z, target.z, r);
    }
  }

  function Chased(at: Point, rate: real, pulls: seq<Pull>, retained: real -> real): Point
    decreases |pulls|
  {
    if pulls == [] then at
    else Chased(Stepped(at, pulls[0].target, rate, pulls[0].delta, retained), rate, pulls[1..], retained)
  }

  /** A follower that starts in a box and chases targets that stay in it never leaves it. */
  lemma {:induction false} StaysInBox(at: Point, rate: real, pulls: seq<Pull>, retained: real -> real, lo: Point, hi: Point)
    requires IsRetained(retained) && InBox(lo, at, hi)
    requires forall i :: 0 <= i < |pulls| ==> InBox(lo, pulls[i].target, hi)
    ensures InBox(lo, Chased(at, rate, pulls, retained), hi)
    decreases |pulls|
  {
    hide Stepped, IsRetained;
    if pulls != [] {
      assert InBox(lo, pulls[0].target, hi);
      NeverOvershoots(at, pulls[0].target, rate, pulls[0].delta, retained);
      StaysInBox(Stepped(at, pulls[0].target, rate, pulls[0].delta, retained), rate, pulls[1..], retained, lo, hi);
    }
  }

  /** A rate or time that is not positive leaves the position alone, and so does being at the target. */
  lemma HoldsStill(at: Point, target: Point, rate: real, deltas: seq<real>, retained: real -> real)
    requires IsRetained(retained)
    ensures rate <= 0.0 || TotalTime(deltas) == 0.0 || at == target ==> AllSteps(at, target, rate, deltas, retained) == at
  {
    hide MixOne, IsRetained;
    FrameRateIndependent(at, target, rate, deltas, retained);
    if at == target {
      NeverOvershoots(at, target, rate, TotalTime(deltas), retained);
    }
  }
}
