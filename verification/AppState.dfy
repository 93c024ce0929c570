/**
 * What one process of the Android app keeps between frames, and what starting, a frame, and user input
 * do to it. AndroidApp.dfy runs these in place; SnapshotProtocol.dfy interleaves them with writers.
 */
module AppState {
  import opened Common
  import opened Bytes
  import opened SnapshotCodec
  import opened WriterSteps

  /** AppStateComponents: HeartbeatCounter, Transform (position, rotation, scale), PointerFollow (target, rate). */
  const HEARTBEAT: Shape := [8]
  const TRANSFORM: Shape := [4, 4, 4, 4, 4, 4, 4, 4, 4, 4]
  const FOLLOW: Shape := [4, 4, 4, 4]
  const SHAPES: seq<Shape> := [HEARTBEAT, TRANSFORM, FOLLOW]

  const COUNTER_WRAP: nat := 0x1_0000_0000_0000_0000
  const HEARTBEAT_ENTITY_COUNT: nat := 3
  const CONFIG_POLL_INTERVAL_TICKS: nat := 120
  const MIN_SNAPSHOT_INTERVAL_TICKS: int := 60
  const MIN_TICK_LOG_INTERVAL: int := 10

  /** 1.0f and 8.0f as 32-bit patterns. */
  const ONE: nat := 0x3F80_0000
  const EIGHT: nat := 0x4100_0000

  datatype Config = Config(log: int, snap: int)

  /** The event a writer posts; `tick` only names which snapshot it reports on. */
  datatype Saved = Saved(tick: nat, size: nat, persisted: bool)

  /** A drained event waiting in the dispatcher, and one its sink has received. */
  datatype Pending = Pending(event: Saved, drained: nat)
  datatype Delivery = Delivery(event: Saved, drained: nat, delivered: nat)

  datatype Phase = Idle | Draining

  /**
   * `base` is the number of frames the restored registry already stood for, `lastSaved` the tick of this
   * process's latest rename, `starts` the ticks at which it started snapshots: history the code does not keep.
   */
  datatype Proc = Proc(
    version: Word, hasDir: bool, tick: nat, reg: Reg, cfg: Config, userTarget: bool,
    inFlight: bool, writers: seq<Writer>,
    queue: seq<Saved>, dispatcher: seq<Pending>, delivered: seq<Delivery>, phase: Phase,
    base: nat, lastSaved: nat, starts: seq<nat>)

  function Max(a: int, b: int): int {
    if a < b then b else a
  }

  function Clamp(c: Config): Config {
    Config(Max(c.log, MIN_TICK_LOG_INTERVAL), Max(c.snap, MIN_SNAPSHOT_INTERVAL_TICKS))
  }

  // ---------------------------------------------------------------- systems

  function Bumped(slot: Slot): Slot {
    if |slot.fields| == 1 then Slot(slot.entity, [(slot.fields[0] + 1) % COUNTER_WRAP]) else slot
  }

  function Increment(pool: seq<Slot>): (out: seq<Slot>)
    ensures |out| == |pool|
    ensures forall i :: 0 <= i < |pool| ==> out[i] == Bumped(pool[i])
  {
    seq(|pool|, i requires 0 <= i < |pool| => Bumped(pool[i]))
  }

  predicate IsPoint(at: seq<nat>) {
    |at| == 3 && forall i :: 0 <= i < 3 ==> at[i] < 0x1_0000_0000
  }

  /** The float arithmetic is not modelled: a frame may put each follower's position anywhere. */
  function Moved(slot: Slot, followers: seq<Slot>, at: seq<nat>): Slot {
    if slot.entity in Entities(followers) && IsPoint(at) && |slot.fields| == 10
    then Slot(slot.entity, at + slot.fields[3..]) else slot
  }

  function Move(transforms: seq<Slot>, followers: seq<Slot>, at: seq<nat>): (out: seq<Slot>)
    ensures |out| == |transforms|
    ensures forall i :: 0 <= i < |transforms| ==> out[i] == Moved(transforms[i], followers, at)
  {
    seq(|transforms|, i requires 0 <= i < |transforms| => Moved(transforms[i], followers, at))
  }

  /** Gliding keeps every transform where it is in the pool, and of a follower's it changes the position only. */
  lemma MoveTouchesOnlyPositions(transforms: seq<Slot>, followers: seq<Slot>, at: seq<nat>, i: nat)
    requires i < |transforms|
    ensures var before, after := transforms[i], Move(transforms, followers, at)[i];
            && |Move(transforms, followers, at)| == |transforms|
            && after.entity == before.entity && |after.fields| == |before.fields|
            && (after != before ==> before.entity in Entities(followers) && |before.fields| == 10 &&
                                    after.fields[3..] == before.fields[3..])
  {
    var before, after := transforms[i], Move(transforms, followers, at)[i];
    if after != before {
      assert after.fields == at + before.fields[3..];
    }
  }

  function Aimed(slot: Slot, at: seq<nat>): Slot {
    if IsPoint(at) && |slot.fields| == 4 then Slot(slot.entity, at + slot.fields[3..]) else slot
  }

  /** World::tick's systems in registration order, on a registry holding the three pools. */
  function RunSystems(r: Reg, at: seq<nat>): Reg {
    if |r.pools| != 3 then r
    else r.(pools := [Increment(r.pools[0]), Move(r.pools[1], r.pools[2], at), r.pools[2]])
  }

  // ---------------------------------------------------------------- starting

  /** registry.create() on a registry nothing was ever destroyed in: the next index. */
  function Created(r: Reg): (Reg, Word) {
    var e: Word := (|r.alive| + |r.free|) % 0x1_0000_0000;
    (Revive(r, e), e)
  }

  function AddHeartbeats(r: Reg, n: nat): Reg
    requires |r.pools| == 3
    decreases n
  {
    if n == 0 then r
    else
      var (r', e) := Created(r);
      AddHeartbeats(r'.(pools := [r'.pools[0] + [Slot(e, [0])], r'.pools[1], r'.pools[2]]), n - 1)
  }

  /** The first entity holding both a Transform and a PointerFollow, if any. */
  function FindFollower(transforms: seq<Slot>, followers: seq<Slot>): Option<Word> {
    if transforms == [] then None
    else if transforms[0].entity in Entities(followers) then Some(transforms[0].entity)
    else FindFollower(transforms[1..], followers)
  }

  function WithFollower(r: Reg): Reg
    requires |r.pools| == 3
  {
    if FindFollower(r.pools[1], r.pools[2]).Some? then r
    else
      var (r', e) := Created(r);
      r'.(pools := [r'.pools[0],
                    r'.pools[1] + [Slot(e, [0, 0, 0, ONE, 0, 0, 0, ONE, ONE, ONE])],
                    r'.pools[2] + [Slot(e, [0, 0, 0, EIGHT])]])
  }

  function Fresh(): Reg {
    AddHeartbeats(Reg([], [], [[], [], []]), HEARTBEAT_ENTITY_COUNT)
  }

  /**
   * on_started(): restore or create the heartbeat entities, find or create the follower, clamp the
   * configuration. `lineage` is what the file stood for, if there was one.
   */
  function Started(version: Word, hasDir: bool, file: Option<Data>, lineage: nat, cfg: Config): Proc {
    var read := if hasDir then Read(SHAPES, file, version) else Err(OpenFailed);
    var restored := read.Ok? && |read.value.pools| == 3;
    var r := if restored then read.value else Fresh();
    var found := FindFollower(r.pools[1], r.pools[2]).Some?;
    Proc(version, hasDir, 0, WithFollower(r), Clamp(cfg), found, false, [], [], [], [], Idle,
         if restored then lineage else 0, 0, [])
  }

  // ---------------------------------------------------------------- frames and input

  function Payload(r: Reg): Data {
    if WellFormed(SHAPES, r) then Encode(SHAPES, r) else []
  }

  function Deliveries(waiting: seq<Pending>, tick: nat): (out: seq<Delivery>)
    ensures |out| == |waiting|
    ensures forall i :: 0 <= i < |waiting| ==> out[i] == Delivery(waiting[i].event, waiting[i].drained, tick)
  {
    seq(|waiting|, i requires 0 <= i < |waiting| => Delivery(waiting[i].event, waiting[i].drained, tick))
  }

  /** World::tick and on_tick up to the configuration poll; `poll` is what a successful reload read. */
  function Polled(p: Proc, at: seq<nat>, poll: Option<Config>): Proc {
    var tick := p.tick + 1;
    p.(reg := RunSystems(p.reg, at),
       delivered := p.delivered + Deliveries(p.dispatcher, tick), dispatcher := [],
       tick := tick,
       cfg := if p.hasDir && tick % CONFIG_POLL_INTERVAL_TICKS == 0 && poll.Some? then Clamp(poll.value) else p.cfg,
       phase := Draining)
  }

  function Capture(p: Proc): Taken {
    Taken(p.reg, p.version, p.tick, p.base + p.tick)
  }

  /** The detached thread: without a state path it goes straight to clearing the flag. */
  function Spawned(p: Proc): Writer {
    Writer(Capture(p), FileBytes(p.version, Payload(p.reg)), if p.hasDir then ToOpen else ToClear, false)
  }

  predicate Due(p: Proc) {
    p.cfg.snap > 0 && p.tick % p.cfg.snap == 0 && !p.inFlight
  }

  function Guarded(p: Proc): Proc {
    if Due(p) then p.(inFlight := true, writers := p.writers + [Spawned(p)], starts := p.starts + [p.tick]) else p
  }

  /** One Application::tick up to the point where it starts draining. */
  function Frame(p: Proc, at: seq<nat>, poll: Option<Config>): Proc {
    Guarded(Polled(p, at, poll))
  }

  /** A touch aims the follower; a resize does so only while the user has not chosen a target. */
  function Aim(p: Proc, at: seq<nat>, touch: bool): Proc {
    if |p.reg.pools| != 3 || p.reg.pools[2] == [] || (!touch && p.userTarget) then p
    else
      var follow := p.reg.pools[2];
      p.(userTarget := p.userTarget || touch,
         reg := p.reg.(pools := [p.reg.pools[0], p.reg.pools[1], [Aimed(follow[0], at)] + follow[1..]]))
  }
}
