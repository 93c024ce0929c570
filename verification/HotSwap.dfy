/**
 * The two hot-swappable modules and the host that ticks and reloads them. A reload saves the old module's
 * state to bytes, starts a new instance from its initial values, and restores the bytes into it.
 */
module HotSwap {
  import opened Bytes
  import opened Approach

  const WAYPOINTS: seq<Point> :=
    [Point(3.0, 0.0, 0.0), Point(0.0, 3.0, 0.0), Point(-3.0, 0.0, 0.0), Point(0.0, -3.0, 0.0)]
  const HOLD_SECONDS: real := 2.0
  const TICKS_WRAP: nat := 0x1_0000_0000_0000_0000

  type Survived = n: nat | n < 0x1_0000_0000_0000_0000

  /** Float addition and what a float's bits stand for; `retained` is the approach's e^-x. */
  datatype Arith = Arith(add: (Word, real) -> Word, seconds: Word -> real, retained: real -> real)

  datatype Mover = Mover(position: Point, target: Point, rate: real)

  /** What one tick leaves behind: the waypoint driven to, if any, every mover, and the survival count. */
  datatype Shot = Shot(waypoint: nat, movers: seq<Mover>, survived: Survived)

  datatype State = State(elapsed: Word, survived: Survived, movers: seq<Mover>, shots: seq<Shot>)

  /** `driven` says whether the cycler's interface was resolved for this tick. */
  datatype Step = Tick(delta: real, driven: bool) | ReloadCycler | ReloadFollow | Aim(which: nat, at: Point)

  /** The 64-bit counter. */
  function Wrapped(n: nat): Survived {
    n % TICKS_WRAP
  }

  /** The cast to an unsigned index; seconds never go negative while deltas do not. */
  function IndexAt(seconds: real): (i: nat)
    ensures i < 4
  {
    if seconds < 0.0 then 0 else (seconds / HOLD_SECONDS).Floor % 4
  }

  function Driven(movers: seq<Mover>, at: Point): (out: seq<Mover>)
    ensures |out| == |movers| && forall i :: 0 <= i < |movers| ==> out[i] == movers[i].(target := at)
  {
    seq(|movers|, i requires 0 <= i < |movers| => movers[i].(target := at))
  }

  function Glide(m: Mover, delta: real, retained: real -> real): Mover {
    m.(position := Stepped(m.position, m.target, m.rate, delta, retained))
  }

  function Glided(movers: seq<Mover>, delta: real, retained: real -> real): (out: seq<Mover>)
    ensures |out| == |movers| && forall i :: 0 <= i < |movers| ==> out[i] == Glide(movers[i], delta, retained)
  {
    seq(|movers|, i requires 0 <= i < |movers| => Glide(movers[i], delta, retained))
  }

  /** What restoring makes of a new instance: the saved value, or its initial value if the bytes are too short. */
  function Restored(width: nat, data: Data): nat {
    match Take(width, data)
    case Got(v, _) => v
    case Thrown => 0
  }

  /** The bytes of a value after a short read has copied what there was over its first bytes. */
  predicate IsOverlaid(w: nat, value: nat, data: Data, before: nat) {
    value < Pow256(w) && before < Pow256(w) && |data| < w && Put(w, value) == data + Put(w, before)[|data|..]
  }

  function Overlaid(w: nat, data: Data, before: nat): (value: nat)
    requires before < Pow256(w) && |data| < w
    ensures IsOverlaid(w, value, data, before)
  {
    var bytes := data + Put(w, before)[|data|..];
    PutTake(w, bytes);
    assert bytes[..w] == bytes;
    Take(w, bytes).value
  }

  // ---------------------------------------------------------------- the modules in place

  class Host {
    var movers: seq<Mover>

    constructor (movers: seq<Mover>)
      ensures this.movers == movers
    {
      this.movers := movers;
    }

    method MoveFollowersTowardTargets(delta: real, retained: real -> real)
      modifies this
      ensures movers == Glided(old(movers), delta, retained)
    {
      for i := 0 to |movers|
        invariant |movers| == |old(movers)|
        invariant forall k :: 0 <= k < i ==> movers[k] == Glide(old(movers)[k], delta, retained)
        invariant forall k :: i <= k < |movers| ==> movers[k] == old(movers)[k]
      {
        var m := movers[i];
        movers := movers[i := m.(position := Stepped(m.position, m.target, m.rate, delta, retained))];
      }
      assert movers == Glided(old(movers), delta, retained);
    }
  }

  class WaypointCycler {
    const arith: Arith
    var elapsed: Word

    constructor (arith: Arith)
      ensures this.arith == arith && elapsed == 0
    {
      this.arith, elapsed := arith, 0;
    }

    method DriveTargets(host: Host, delta: real) returns (waypoint: nat)
      modifies this, host
      ensures elapsed == arith.add(old(elapsed), delta)
      ensures waypoint == IndexAt(arith.seconds(elapsed)) && host.movers == Driven(old(host.movers), WAYPOINTS[waypoint])
    {
      elapsed := arith.add(elapsed, delta);
      waypoint := IndexAt(arith.seconds(elapsed));
      var current := WAYPOINTS[waypoint];
      for i := 0 to |host.movers|
        invariant elapsed == arith.add(old(elapsed), delta) && |host.movers| == |old(host.movers)|
        invariant forall k :: 0 <= k < i ==> host.movers[k] == old(host.movers)[k].(target := current)
        invariant forall k :: i <= k < |host.movers| ==> host.movers[k] == old(host.movers)[k]
      {
        host.movers := host.movers[i := host.movers[i].(target := current)];
      }
      assert host.movers == Driven(old(host.movers), current);
    }

    method SaveState() returns (data: Data)
      ensures |data| == 4 && forall more: Data :: Take(4, data + more) == Got(elapsed, more)
    {
      WordWidth();
      var archive := new OutArchive();
      archive.Save(4, elapsed);
      data := archive.bytes;
      assert [] + Put(4, elapsed) == Put(4, elapsed);
      forall more: Data ensures Take(4, data + more) == Got(elapsed, more) {
        TakePut(4, elapsed, more);
      }
    }

    method RestoreState(data: Data) returns (ok: bool)
      modifies this
      ensures ok <==> |data| >= 4
      ensures ok ==> elapsed == Take(4, data).value
      ensures !ok ==> elapsed == old(elapsed) || IsOverlaid(4, elapsed, data, old(elapsed))
    {
      WordWidth();
      var archive := new InArchive(data, 0);
      assert archive.Rest() == data;
      var r := archive.Load(4);
      if r.Thrown? {
        var untouched: bool := *;
        if !untouched {
          elapsed := Overlaid(4, data, elapsed);
        }
        return false;
      }
      elapsed := r.value;
      ok := true;
    }
  }

  class PointerFollow {
    var survived: Survived

    constructor ()
      ensures survived == 0
    {
      survived := 0;
    }

    /** tick_thunk: drive the targets if the peer is there, glide, and count. */
    method TickThunk(host: Host, delta: real, cycler: WaypointCycler?, retained: real -> real) returns (waypoint: nat)
      modifies this, host, cycler
      ensures cycler != null ==> cycler.elapsed == cycler.arith.add(old(cycler.elapsed), delta)
      ensures waypoint == if cycler == null then 0 else IndexAt(cycler.arith.seconds(cycler.elapsed))
      ensures var driven := if cycler == null then old(host.movers) else Driven(old(host.movers), WAYPOINTS[waypoint]);
              host.movers == Glided(driven, delta, retained)
      ensures survived == Wrapped(old(survived) + 1)
    {
      waypoint := 0;
      if cycler != null {
        waypoint := cycler.DriveTargets(host, delta);
      }
      host.MoveFollowersTowardTargets(delta, retained);
      survived := Wrapped(survived + 1);
    }

    method SaveState() returns (data: Data)
      ensures |data| == 8 && forall more: Data :: Take(8, data + more) == Got(survived, more)
    {
      WordWidth();
      var archive := new OutArchive();
      archive.Save(8, survived);
      data := archive.bytes;
      assert [] + Put(8, survived) == Put(8, survived);
      forall more: Data ensures Take(8, data + more) == Got(survived, more) {
        TakePut(8, survived, more);
      }
    }

    method RestoreState(data: Data) returns (ok: bool)
      modifies this
      ensures ok <==> |data| >= 8
      ensures ok ==> survived == Take(8, data).value
      ensures !ok ==> survived == old(survived) || IsOverlaid(8, survived, data, old(survived))
    {
      WordWidth();
      var archive := new InArchive(data, 0);
      assert archive.Rest() == data;
      var r := archive.Load(8);
      if r.Thrown? {
        var untouched: bool := *;
        if !untouched {
          survived := Overlaid(8, data, survived);
        }
        return false;
      }
      survived := r.value;
      ok := true;
    }
  }

  /** Reloading the cycler: the new instance continues where the old one was. */
  method ReloadCyclerModule(running: WaypointCycler) returns (reloaded: WaypointCycler)
    ensures fresh(reloaded) && reloaded.arith == running.arith && reloaded.elapsed == running.elapsed
  {
    var data := running.SaveState();
    reloaded := new WaypointCycler(running.arith);
    assert data + [] == data;
    var ok := reloaded.RestoreState(data);
  }

  method ReloadFollowModule(running: PointerFollow) returns (reloaded: PointerFollow)
    ensures fresh(reloaded) && reloaded.survived == running.survived
  {
    var data := running.SaveState();
    reloaded := new PointerFollow();
    assert data + [] == data;
    var ok := reloaded.RestoreState(data);
  }

  // ---------------------------------------------------------------- whole runs

  function Ticked(s: State, arith: Arith, delta: real, driven: bool): State {
    var elapsed := if driven then arith.add(s.elapsed, delta) else s.elapsed;
    var waypoint := if driven then IndexAt(arith.seconds(elapsed)) else 0;
    var aimed := if driven then Driven(s.movers, WAYPOINTS[waypoint]) else s.movers;
    var movers := Glided(aimed, delta, arith.retained);
    var survived := Wrapped(s.survived + 1);
    State(elapsed, survived, movers, s.shots + [Shot(waypoint, movers, survived)])
  }

  /** One frame of the host: the pointer-follow module's tick, given the cycler's interface when it is resolved. */
  method TickModules(host: Host, follow: PointerFollow, cycler: WaypointCycler, delta: real, driven: bool, shots: seq<Shot>)
    returns (more: seq<Shot>)
    modifies host, follow, cycler
    ensures State(cycler.elapsed, follow.survived, host.movers, more) ==
            Ticked(State(old(cycler.elapsed), old(follow.survived), old(host.movers), shots), cycler.arith, delta, driven)
  {
    var resolved: WaypointCycler? := if driven then cycler else null;
    var waypoint := follow.TickThunk(host, delta, resolved, cycler.arith.retained);
    more := shots + [Shot(waypoint, host.movers, follow.survived)];
  }

  function Next(s: State, arith: Arith, step: Step): State {
    match step
    case Tick(delta, driven) => Ticked(s, arith, delta, driven)
    case ReloadCycler =>
      WordWidth();
      var v := Restored(4, Put(4, s.elapsed));
      s.(elapsed := if v < 0x1_0000_0000 then v else 0)
    case ReloadFollow =>
      WordWidth();
      var v := Restored(8, Put(8, s.survived));
      s.(survived := if v < TICKS_WRAP then v else 0)
    case Aim(which, at) =>
      if which < |s.movers| then s.(movers := s.movers[which := s.movers[which].(target := at)]) else s
  }

  function Run(s: State, arith: Arith, steps: seq<Step>): State
    decreases |steps|
  {
    if steps == [] then s else Run(Next(s, arith, steps[0]), arith, steps[1..])
  }

  predicate IsReload(step: Step) {
    step.ReloadCycler? || step.ReloadFollow?
  }

  function WithoutReloads(steps: seq<Step>): (out: seq<Step>)
    ensures forall i :: 0 <= i < |out| ==> !IsReload(out[i])
  {
    if steps == [] then []
    else (if IsReload(steps[0]) then [] else [steps[0]]) + WithoutReloads(steps[1..])
  }

  /** Saving, starting afresh and restoring changes nothing. */
  lemma ReloadIsInvisible(s: State, arith: Arith, step: Step)
    requires IsReload(step)
    ensures Next(s, arith, step) == s
  {
    WordWidth();
    if step.ReloadCycler? {
      TakePut(4, s.elapsed, []);
      assert Put(4, s.elapsed) + [] == Put(4, s.elapsed);
    } else {
      TakePut(8, s.survived, []);
      assert Put(8, s.survived) + [] == Put(8, s.survived);
    }
  }

  /**
   * Reloads of either module inserted anywhere leave the whole history of targets, positions, waypoints and
   * survival counts, and the final state, as they are without them.
   */
  lemma {:induction false} ReloadsAreTransparent(s: State, arith: Arith, steps: seq<Step>)
    ensures Run(s, arith, steps) == Run(s, arith, WithoutReloads(steps))
    decreases |steps|
  {
    hide Next;
    if steps != [] {
      var rest := WithoutReloads(steps[1..]);
      if IsReload(steps[0]) {
        ReloadIsInvisible(s, arith, steps[0]);
        ReloadsAreTransparent(s, arith, steps[1..]);
        assert [] + rest == rest;
      } else {
        ReloadsAreTransparent(Next(s, arith, steps[0]), arith, steps[1..]);
        assert ([steps[0]] + rest)[1..] == rest;
      }
    }
  }

  // ---------------------------------------------------------------- which waypoint

  function Driving(steps: seq<Step>): real {
    if steps == [] then 0.0
    else (if steps[0].Tick? && steps[0].driven then steps[0].delta else 0.0) + Driving(steps[1..])
  }

  /** Every float addition of the run is exact, and no delta is negative. */
  predicate IsExactRun(s: State, arith: Arith, steps: seq<Step>)
    decreases |steps|
  {
    steps == [] || (
      && (steps[0].Tick? && steps[0].driven ==>
            steps[0].delta >= 0.0 && arith.seconds(arith.add(s.elapsed, steps[0].delta)) == arith.seconds(s.elapsed) + steps[0].delta)
      && IsExactRun(Next(s, arith, steps[0]), arith, steps[1..]))
  }

  lemma {:induction false} ElapsedIsSum(s: State, arith: Arith, steps: seq<Step>)
    requires IsExactRun(s, arith, steps)
    ensures arith.seconds(Run(s, arith, steps).elapsed) == arith.seconds(s.elapsed) + Driving(steps)
    ensures Driving(steps) >= 0.0
    decreases |steps|
  {
    hide Driven, Glided;
    if steps != [] {
      if IsReload(steps[0]) {
        ReloadIsInvisible(s, arith, steps[0]);
      }
      ElapsedIsSum(Next(s, arith, steps[0]), arith, steps[1..]);
    }
  }

  /**
   * After any run of ticks, touches and reloads, the tick that brings the total driven time to t aims every
   * follower at waypoint floor(t / 2) mod 4.
   */
  lemma WaypointByTime(s: State, arith: Arith, steps: seq<Step>, delta: real)
    requires arith.seconds(s.elapsed) == 0.0 && delta >= 0.0 && IsExactRun(s, arith, steps)
    requires var e := Run(s, arith, steps).elapsed; arith.seconds(arith.add(e, delta)) == arith.seconds(e) + delta
    ensures var t := Ticked(Run(s, arith, steps), arith, delta, true);
            var index := ((Driving(steps) + delta) / 2.0).Floor % 4;
            && t.shots[|t.shots| - 1].waypoint == index
            && forall i :: 0 <= i < |t.movers| ==> t.movers[i].target == WAYPOINTS[index]
  {
    ElapsedIsSum(s, arith, steps);
  }

  /** The waypoints start at (3, 0, 0) and each is a quarter turn on from the one before. */
  lemma WaypointsCircle(k: nat)
    requires k < 4
    ensures WAYPOINTS[0] == Point(3.0, 0.0, 0.0) && |WAYPOINTS| == 4
    ensures WAYPOINTS[(k + 1) % 4] == Point(-WAYPOINTS[k].y, WAYPOINTS[k].x, 0.0)
  {
  }

  /** Of the distance to its new target the mover keeps the fraction for its rate and the time, or has not moved. */
  predicate Nears(was: Mover, now: Mover, delta: real, retained: real -> real) {
    if was.rate > 0.0 && delta > 0.0
    then LeavesOf(was.position, now.position, now.target, retained(was.rate * delta))
    else now.position == was.position
  }

  /**
   * One tick, follower by follower: the cycler's waypoint becomes the target first, if it drives, and then the
   * follower covers all but the retained fraction of the way to that target; its rate stays.
   */
  lemma TickMoves(s: State, arith: Arith, delta: real, driven: bool, i: nat)
    requires i < |s.movers|
    ensures var t := Next(s, arith, Tick(delta, driven));
            && |t.movers| == |s.movers| && |t.shots| == |s.shots| + 1 && t.shots[..|s.shots|] == s.shots
            && t.shots[|s.shots|].movers == t.movers && t.shots[|s.shots|].survived == t.survived
            && t.elapsed == if driven then arith.add(s.elapsed, delta) else s.elapsed
    ensures var t := Next(s, arith, Tick(delta, driven));
            var was, now := s.movers[i], t.movers[i];
            && now.rate == was.rate
            && now.target == (if driven then WAYPOINTS[t.shots[|s.shots|].waypoint] else was.target)
            && Nears(was, now, delta, arith.retained)
  {
    hide Stepped, IndexAt, Nears;
    var t := Next(s, arith, Tick(delta, driven));
    GlideDistance(s.movers[i], t.movers[i], delta, arith.retained);
  }

  lemma GlideDistance(was: Mover, now: Mover, delta: real, retained: real -> real)
    requires now == Glide(was.(target := now.target), delta, retained)
    ensures Nears(was, now, delta, retained)
  {
    hide Stepped, LeavesOf;
    StepDistance(was.position, now.target, was.rate, delta, retained);
  }

  lemma SurvivalStep(s: State, arith: Arith, step: Step)
    ensures var t := Next(s, arith, step);
            if step.Tick? then t.survived == Wrapped(s.survived + 1) && |t.shots| == |s.shots| + 1
            else t.survived == s.survived && |t.shots| == |s.shots|
  {
    hide Driven, Glided, IndexAt;
    if IsReload(step) {
      ReloadIsInvisible(s, arith, step);
    }
  }

  /** The survival count is the number of ticks, whatever was reloaded in between, modulo 2^64. */
  function Ticks(steps: seq<Step>): nat {
    if steps == [] then 0 else (if steps[0].Tick? then 1 else 0) + Ticks(steps[1..])
  }

  lemma CountWraps(a: nat, n: nat)
    ensures Wrapped(Wrapped(a + 1) + n) == Wrapped(a + 1 + n)
  {
    var q := (a + 1) / TICKS_WRAP;
    assert a + 1 + n == q * TICKS_WRAP + (Wrapped(a + 1) + n);
  }

  lemma WrapsOnce(a: Survived)
    ensures Wrapped(a) == a
  {
  }

  lemma {:induction false} SurvivalCountsTicks(s: State, arith: Arith, steps: seq<Step>)
    ensures var t := Run(s, arith, steps);
            t.survived == Wrapped(s.survived + Ticks(steps)) && |t.shots| == |s.shots| + Ticks(steps)
    decreases |steps|
  {
    hide Next, Wrapped;
    if steps == [] {
      WrapsOnce(s.survived);
    } else {
      SurvivalStep(s, arith, steps[0]);
      SurvivalCountsTicks(Next(s, arith, steps[0]), arith, steps[1..]);
      CountWraps(s.survived, Ticks(steps[1..]));
    }
  }

  function WithinStage(lo: Point, movers: seq<Mover>, hi: Point): bool {
    forall i :: 0 <= i < |movers| ==> InBox(lo, movers[i].position, hi) && InBox(lo, movers[i].target, hi)
  }

  /** Followers inside a box around the waypoints stay inside it, over any run whose touches stay inside too. */
  lemma {:induction false} FollowersStayOnStage(s: State, arith: Arith, steps: seq<Step>, lo: Point, hi: Point)
    requires IsRetained(arith.retained) && WithinStage(lo, s.movers, hi)
    requires forall k :: 0 <= k < 4 ==> InBox(lo, WAYPOINTS[k], hi)
    requires forall i :: 0 <= i < |steps| && steps[i].Aim? ==> InBox(lo, steps[i].at, hi)
    ensures WithinStage(lo, Run(s, arith, steps).movers, hi)
    decreases |steps|
  {
    hide IsRetained, Stepped, InBox;
    if steps != [] {
      var t := Next(s, arith, steps[0]);
      match steps[0] {
        case Tick(delta, driven) =>
          var waypoint := t.shots[|t.shots| - 1].waypoint;
          forall i | 0 <= i < |t.movers| ensures InBox(lo, t.movers[i].position, hi) && InBox(lo, t.movers[i].target, hi) {
            assert InBox(lo, WAYPOINTS[waypoint], hi);
            var m := if driven then s.movers[i].(target := WAYPOINTS[waypoint]) else s.movers[i];
            GlideStaysInBox(m, delta, arith.retained, lo, hi);
          }
        case ReloadCycler =>
        case ReloadFollow =>
        case Aim(_, _) =>
      }
      FollowersStayOnStage(t, arith, steps[1..], lo, hi);
    }
  }

  lemma GlideStaysInBox(m: Mover, delta: real, retained: real -> real, lo: Point, hi: Point)
    requires IsRetained(retained) && InBox(lo, m.position, hi) && InBox(lo, m.target, hi)
    ensures InBox(lo, Glide(m, delta, retained).position, hi)
  {
    NeverOvershoots(m.position, m.target, m.rate, delta, retained);
  }
}
