/**
 * KonativeAndroidApp's own methods: on_started(), one Application::tick(), the drain loop and the input
 * handlers, changing the app's fields and registry in place.
 */
module AndroidApp {
  import opened Common
  import opened Bytes
  import opened SnapshotCodec
  import opened WriterSteps
  import opened AppState
  import opened SnapshotFile
  import SnapshotProtocol

  lemma NoSteps(s: SnapshotProtocol.State)
    ensures SnapshotProtocol.Run(s, []) == s
  {
  }

  /** A step of the drain: one event dequeued, its end, or a writer posting meanwhile. */
  predicate IsDrainStep(step: SnapshotProtocol.Step) {
    step.Drain? || step.DrainDone? || step.Write?
  }

  lemma LastIsDrainStep()
    ensures IsDrainStep(SnapshotProtocol.DrainDone)
  {
  }

  lemma FreshPools()
    ensures |Fresh().pools| == 3
  {
    FreshPoolsOf(Reg([], [], [[], [], []]), HEARTBEAT_ENTITY_COUNT);
  }

  lemma {:induction false} FreshPoolsOf(r: Reg, n: nat)
    requires |r.pools| == 3
    ensures |AddHeartbeats(r, n).pools| == 3
    decreases n
  {
    if n > 0 {
      var (r', e) := Created(r);
      FreshPoolsOf(r'.(pools := [r'.pools[0] + [Slot(e, [0])], r'.pools[1], r'.pools[2]]), n - 1);
    }
  }

  lemma NotDue(p: Proc)
    ensures !Due(p) ==> Guarded(p) == p
  {
  }

  function Blank(version: Word, hasDir: bool): Proc {
    Proc(version, hasDir, 0, EMPTY, Config(120, 300), false, false, [], [], [], [], Idle, 0, 0, [])
  }

  lemma StartedParts(version: Word, hasDir: bool, file: Option<Data>, lineage: nat, cfg: Config)
    requires |Fresh().pools| == 3
    ensures var restored := hasDir && Read(SHAPES, file, version).Ok? && |Read(SHAPES, file, version).value.pools| == 3;
            var r := if restored then Read(SHAPES, file, version).value else Fresh();
            Started(version, hasDir, file, lineage, cfg) ==
            Blank(version, hasDir).(cfg := Clamp(cfg), reg := WithFollower(r), base := if restored then lineage else 0,
                                         userTarget := FindFollower(r.pools[1], r.pools[2]).Some?)
  {
    hide Read, Fresh, FindFollower, WithFollower, Clamp;
  }

  class App {
    const registry: Registry
    const version: Word
    const hasDir: bool
    var tickCount: nat
    var cfg: Config
    var userTarget: bool
    var inFlight: bool
    var writers: seq<Writer>
    var queue: seq<Saved>
    var dispatcher: seq<Pending>
    var delivered: seq<Delivery>
    var phase: Phase
    /** History the app itself does not keep. */
    var base: nat
    var lastSaved: nat
    var starts: seq<nat>

    function View(): Proc
      reads this, registry
    {
      Proc(version, hasDir, tickCount, registry.Value(), cfg, userTarget, inFlight, writers, queue, dispatcher,
           delivered, phase, base, lastSaved, starts)
    }

    /** The app object before on_started(): member defaults, and whether a files directory was resolved. */
    constructor (version: Word, hasDir: bool)
      ensures fresh(registry) && View() == Blank(version, hasDir)
    {
      registry := new Registry();
      this.version, this.hasDir := version, hasDir;
      tickCount, cfg, userTarget, inFlight := 0, Config(120, 300), false, false;
      writers, queue, dispatcher, delivered, phase := [], [], [], [], Idle;
      base, lastSaved, starts := 0, 0, [];
    }

    method CreateEntity() returns (e: Word)
      modifies registry
      ensures (registry.Value(), e) == Created(old(registry.Value()))
    {
      e := (|registry.alive| + |registry.free|) % 0x1_0000_0000;
      registry.EmplaceEntity(e);
    }

    method AddHeartbeatEntities()
      requires |registry.pools| == 3
      modifies registry
      ensures registry.Value() == AddHeartbeats(old(registry.Value()), HEARTBEAT_ENTITY_COUNT)
    {
      for i := 0 to HEARTBEAT_ENTITY_COUNT
        invariant |registry.pools| == 3
        invariant AddHeartbeats(registry.Value(), HEARTBEAT_ENTITY_COUNT - i) ==
                  AddHeartbeats(old(registry.Value()), HEARTBEAT_ENTITY_COUNT)
      {
        var e := CreateEntity();
        registry.pools := [registry.pools[0] + [Slot(e, [0])], registry.pools[1], registry.pools[2]];
      }
    }

    /** follower_view.front(): the first entity with both components. */
    method Front() returns (found: Option<Word>)
      requires |registry.pools| == 3
      ensures found == FindFollower(registry.pools[1], registry.pools[2])
    {
      for i := 0 to |registry.pools[1]|
        invariant FindFollower(registry.pools[1], registry.pools[2]) ==
                  FindFollower(registry.pools[1][i..], registry.pools[2])
      {
        assert registry.pools[1][i..][1..] == registry.pools[1][i + 1..];
        if registry.pools[1][i].entity in Entities(registry.pools[2]) {
          return Some(registry.pools[1][i].entity);
        }
      }
      found := None;
    }

    method FindOrCreateFollower()
      requires |registry.pools| == 3
      modifies registry, this
      ensures registry.Value() == WithFollower(old(registry.Value()))
      ensures userTarget == (old(userTarget) || FindFollower(old(registry.pools[1]), old(registry.pools[2])).Some?)
      ensures View() == old(View()).(reg := registry.Value(), userTarget := userTarget)
    {
      var found := Front();
      if found.Some? {
        userTarget := true;
      } else {
        var e := CreateEntity();
        registry.pools := [registry.pools[0],
                           registry.pools[1] + [Slot(e, [0, 0, 0, ONE, 0, 0, 0, ONE, ONE, ONE])],
                           registry.pools[2] + [Slot(e, [0, 0, 0, EIGHT])]];
      }
    }

    /** The restore attempt of on_started(): sweep the orphans, then read the state file if it opens. */
    method Restore(fs: FileSystem, path: string, opens: bool, stuck: set<string>) returns (restored: bool)
      requires registry.Value() == EMPTY
      modifies registry, fs
      ensures fs.files == Swept(path, old(fs.files), stuck)
      ensures var file := if opens && path in old(fs.files) then Some(old(fs.files)[path]) else None;
              match Read(SHAPES, file, version)
              case Ok(r) => registry.Value() == r && restored == (|r.pools| == 3)
              case Err(_) => !restored
    {
      SweepSparesState(path, fs.files, stuck, 0);
      CleanupOrphans(fs, path, stuck);
      var file := if opens && path in fs.files then Some(fs.files[path]) else None;
      var r := ReadSnapshotFile(registry, SHAPES, file, version);
      restored := r.Ok? && |registry.pools| == 3;
    }

    method Populate(restored: bool)
      requires restored ==> |registry.pools| == 3
      modifies registry
      ensures registry.Value() == if restored then old(registry.Value()) else Fresh()
    {
      if !restored {
        registry.alive, registry.free, registry.pools := [], [], [[], [], []];
        AddHeartbeatEntities();
      }
    }

    /** Sweep, restore or create, find or create the follower, clamp the configuration. */
    method OnStarted(fs: FileSystem, path: string, opens: bool, loaded: Config, stuck: set<string>, lineage: nat)
      requires View() == Blank(version, hasDir)
      modifies this, registry, fs
      ensures fs.files == if hasDir then Swept(path, old(fs.files), stuck) else old(fs.files)
      ensures var file := if opens && path in old(fs.files) then Some(old(fs.files)[path]) else None;
              View() == Started(version, hasDir, file, lineage, loaded)
    {
      hide Read, Fresh, Swept, FindFollower, WithFollower, Started, Clamp;
      FreshPools();
      ghost var file := if opens && path in fs.files then Some(fs.files[path]) else None;
      StartedParts(version, hasDir, file, lineage, loaded);
      cfg := Clamp(loaded);
      var restored := false;
      if hasDir {
        restored := Restore(fs, path, opens, stuck);
      }
      Populate(restored);
      base := if restored then lineage else 0;
      FindOrCreateFollower();
    }

    /** increment_heartbeat_counters: every counter in the view goes up by one, modulo 2^64. */
    method IncrementHeartbeatCounters()
      requires |registry.pools| == 3
      modifies registry
      ensures registry.Value() ==
              old(registry.Value()).(pools := [Increment(old(registry.pools[0])), old(registry.pools[1]), old(registry.pools[2])])
    {
      var pool := registry.pools[0];
      for i := 0 to |pool|
        invariant |pool| == |old(registry.pools[0])|
        invariant forall k :: 0 <= k < i ==> pool[k] == Bumped(old(registry.pools[0])[k])
        invariant forall k :: i <= k < |pool| ==> pool[k] == old(registry.pools[0])[k]
      {
        if |pool[i].fields| == 1 {
          pool := pool[i := Slot(pool[i].entity, [(pool[i].fields[0] + 1) % COUNTER_WRAP])];
        }
      }
      registry.pools := [pool, registry.pools[1], registry.pools[2]];
      assert pool == Increment(old(registry.pools[0]));
    }

    method MoveFollowers(at: seq<nat>)
      requires |registry.pools| == 3
      modifies registry
      ensures registry.Value() ==
              old(registry.Value()).(pools := [old(registry.pools[0]), Move(old(registry.pools[1]), old(registry.pools[2]), at), old(registry.pools[2])])
    {
      var pool := registry.pools[1];
      for i := 0 to |pool|
        invariant |pool| == |old(registry.pools[1])|
        invariant forall k :: 0 <= k < i ==> pool[k] == Moved(old(registry.pools[1])[k], registry.pools[2], at)
        invariant forall k :: i <= k < |pool| ==> pool[k] == old(registry.pools[1])[k]
      {
        pool := pool[i := Moved(pool[i], registry.pools[2], at)];
      }
      registry.pools := [registry.pools[0], pool, registry.pools[2]];
      assert pool == Move(old(registry.pools[1]), old(registry.pools[2]), at);
    }

    /** World::tick(): the systems in registration order, then Dispatcher::update(). */
    method WorldTick(at: seq<nat>)
      modifies this, registry
      ensures View() == old(View()).(reg := RunSystems(old(registry.Value()), at), dispatcher := [],
                                     delivered := old(delivered) + Deliveries(old(dispatcher), old(tickCount) + 1))
    {
      if |registry.pools| == 3 {
        IncrementHeartbeatCounters();
        MoveFollowers(at);
      }
      for i := 0 to |dispatcher|
        invariant View() == old(View()).(reg := RunSystems(old(registry.Value()), at), delivered := delivered)
        invariant delivered == old(delivered) + Deliveries(old(dispatcher), old(tickCount) + 1)[..i]
      {
        delivered := delivered + [Delivery(dispatcher[i].event, dispatcher[i].drained, tickCount + 1)];
      }
      dispatcher := [];
    }

    /** Captures the registry on this thread and hands the bytes to a detached writer. */
    method StartSnapshot()
      requires Due(View())
      modifies `inFlight, `writers, `starts
      ensures View() == Guarded(old(View()))
      ensures inFlight && starts == old(starts) + [tickCount]
      ensures writers == old(writers) + [Writer(Taken(registry.Value(), version, tickCount, base + tickCount),
                                                FileBytes(version, Payload(registry.Value())),
                                                if hasDir then ToOpen else ToClear, false)]
    {
      hide WellFormed, Encode, FileBytes;
      inFlight := true;
      var payload: Data := [];
      if WellFormed(SHAPES, registry.Value()) {
        payload := Serialize(registry, SHAPES);
      }
      var taken := Taken(registry.Value(), version, tickCount, base + tickCount);
      writers := writers + [Writer(taken, FileBytes(version, payload), if hasDir then ToOpen else ToClear, false)];
      starts := starts + [tickCount];
    }

    /** The count and the configuration poll: every 120 frames with a files directory, a reload's values clamped. */
    method CountAndPoll(poll: Option<Config>)
      modifies `tickCount, `phase, `cfg
      ensures tickCount == old(tickCount) + 1 && phase == Draining
      ensures cfg == if hasDir && tickCount % CONFIG_POLL_INTERVAL_TICKS == 0 && poll.Some? then Clamp(poll.value) else old(cfg)
    {
      tickCount := tickCount + 1;
      phase := Draining;
      if hasDir && tickCount % CONFIG_POLL_INTERVAL_TICKS == 0 && poll.Some? {
        cfg := Clamp(poll.value);
      }
    }

    /** Starts a snapshot on every multiple of the interval, unless one is in flight. */
    method SnapshotIfDue()
      modifies `inFlight, `writers, `starts
      ensures View() == Guarded(old(View()))
      ensures if cfg.snap > 0 && tickCount % cfg.snap == 0 && !old(inFlight)
              then inFlight && starts == old(starts) + [tickCount] &&
                   writers == old(writers) + [Writer(Taken(registry.Value(), version, tickCount, base + tickCount),
                                                     FileBytes(version, Payload(registry.Value())),
                                                     if hasDir then ToOpen else ToClear, false)]
              else inFlight == old(inFlight) && starts == old(starts) && writers == old(writers)
    {
      NotDue(View());
      hide Guarded, Spawned, Capture, Payload;
      if cfg.snap > 0 && tickCount % cfg.snap == 0 && !inFlight {
        StartSnapshot();
      }
    }

    /** on_tick() up to the drain: count, poll, clamp, and start a snapshot unless one is in flight. */
    method OnTick(poll: Option<Config>)
      modifies `tickCount, `phase, `cfg, `inFlight, `writers, `starts
      ensures tickCount == old(tickCount) + 1 && (!hasDir || tickCount % 120 != 0 || poll.None? ==> cfg == old(cfg))
      ensures hasDir && tickCount % 120 == 0 && poll.Some? && poll.value.log >= 10 && poll.value.snap >= 60 ==> cfg == poll.value
      ensures View() == Guarded(old(View()).(tick := old(tickCount) + 1, phase := Draining,
                 cfg := if hasDir && (old(tickCount) + 1) % CONFIG_POLL_INTERVAL_TICKS == 0 && poll.Some?
                        then Clamp(poll.value) else old(cfg)))
    {
      CountAndPoll(poll);
      hide Guarded;
      SnapshotIfDue();
    }

    /** Application::tick(): the world first, then on_tick(). */
    method Tick(at: seq<nat>, poll: Option<Config>)
      modifies this, registry
      ensures View() == Frame(old(View()), at, poll)
    {
      WorldTick(at);
      OnTick(poll);
    }

    /** A writer thread posts its report and ends. */
    method PostReport(who: nat)
      requires who < |writers| && writers[who].pc == ToPost
      modifies this
      ensures View() == old(View()).(queue := old(queue) + [SnapshotProtocol.Report(old(writers)[who])],
                                     writers := old(writers)[..who] + old(writers)[who + 1..])
    {
      queue := queue + [SnapshotProtocol.Report(writers[who])];
      writers := writers[..who] + writers[who + 1..];
    }

    /** try_dequeue(): writers are separate producers, so any queued event may come out. */
    method Dequeue(which: nat)
      requires which < |queue|
      modifies this
      ensures View() == SnapshotProtocol.AfterDrain(old(View()), which)
    {
      dispatcher := dispatcher + [Pending(queue[which], tickCount)];
      queue := queue[..which] + queue[which + 1..];
    }

    /** One turn of the drain: a writer ready to post does so first, or an event comes out, or none is left. */
    method DrainTurn(ghost s: SnapshotProtocol.State) returns (done: bool, ghost step: SnapshotProtocol.Step)
      requires s.proc == Some(View()) && phase == Draining
      modifies this
      ensures done ==> queue == [] && View() == old(View())
      ensures !done ==> IsDrainStep(step) && SnapshotProtocol.Next(s, step) == s.(proc := Some(View()))
      ensures !done ==> |writers| < old(|writers|) || (|writers| == old(|writers|) && |queue| < old(|queue|))
      ensures phase == Draining
    {
      var who: int := *;
      done, step := false, SnapshotProtocol.DrainDone;
      if 0 <= who < |writers| && writers[who].pc == ToPost {
        step := SnapshotProtocol.Write(who, Succeed);
        PostReport(who);
      } else if queue != [] {
        var any: int := *;
        var which := if 0 <= any < |queue| then any else 0;
        step := SnapshotProtocol.Drain(which);
        Dequeue(which);
      } else {
        done := true;
      }
    }

    /**
     * drain_into(): dequeues until the queue is seen empty, while writers that are ready to post may do so at
     * any moment. It is a run of the protocol's drain and post steps.
     */
    method DrainInto(ghost s: SnapshotProtocol.State) returns (ghost steps: seq<SnapshotProtocol.Step>)
      requires s.proc == Some(View()) && phase == Draining
      modifies this
      ensures SnapshotProtocol.Run(s, steps) == s.(proc := Some(View())) && queue == [] && phase == Idle
      ensures forall i :: 0 <= i < |steps| ==> IsDrainStep(steps[i])
    {
      hide SnapshotProtocol.Run, IsDrainStep;
      steps := [];
      NoSteps(s);
      var done := false;
      while !done
        invariant SnapshotProtocol.Run(s, steps) == s.(proc := Some(View()))
        invariant forall i :: 0 <= i < |steps| ==> IsDrainStep(steps[i])
        invariant phase == Draining && (done ==> queue == [])
        decreases |writers|, |queue|, !done
      {
        hide SnapshotProtocol.Next;
        ghost var step;
        ghost var now := s.(proc := Some(View()));
        done, step := DrainTurn(now);
        if !done {
          SnapshotProtocol.RunSnoc(s, steps, step);
          steps := steps + [step];
        }
      }
      SnapshotProtocol.RunSnoc(s, steps, SnapshotProtocol.DrainDone);
      steps := steps + [SnapshotProtocol.DrainDone];
      LastIsDrainStep();
      phase := Idle;
    }

    /** The touch handlers aim the follower; a window resize does so only until the user has a target. */
    method AimFollower(at: seq<nat>, touch: bool)
      modifies this, registry
      ensures View() == Aim(old(View()), at, touch)
    {
      if |registry.pools| == 3 && registry.pools[2] != [] && (touch || !userTarget) {
        userTarget := userTarget || touch;
        var follow := registry.pools[2];
        registry.pools := [registry.pools[0], registry.pools[1], [Aimed(follow[0], at)] + follow[1..]];
      }
    }
  }
}
