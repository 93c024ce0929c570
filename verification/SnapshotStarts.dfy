/**
 * What one frame, one launch and one touch do in any reachable state, said without the step functions: exactly
 * when a snapshot starts and with which bytes, what a restore brings back, and what input may change.
 */
module SnapshotStarts {
  import opened Common
  import opened Bytes
  import opened SnapshotCodec
  import opened WriterSteps
  import opened AppState
  import opened SnapshotProtocol
  import opened SnapshotGuarantees

  /** No writer is between its spawn and clearing the flag: each has at most its report left to post. */
  predicate NoneUnderWay(writers: seq<Writer>) {
    forall i :: 0 <= i < |writers| ==> writers[i].pc == ToPost
  }

  lemma FlagMeansUnderWay(p: Proc)
    requires FlagOk(p)
    ensures p.inFlight <==> !NoneUnderWay(p.writers)
  {
    if p.writers != [] && NoneUnderWay(p.writers) {
      assert p.writers[|p.writers| - 1].pc == ToPost;
    }
  }

  lemma InvFlag(s: State)
    requires Inv(s) && s.proc.Some?
    ensures FlagOk(s.proc.value) && Populated(s.proc.value.reg, s.proc.value.base + s.proc.value.tick)
  {
    hide Populated, TakenBytes, WriterOk, TempOk, History, DiskOk;
  }

  /** What a frame leaves but for the snapshot and the configuration: the count, the registry, the dispatcher. */
  lemma CountedFrame(p: Proc, at: seq<nat>, poll: Option<Config>)
    ensures var q := Frame(p, at, poll);
            && q.tick == p.tick + 1 && q.phase == Draining && q.dispatcher == []
            && q == p.(reg := q.reg, delivered := q.delivered, dispatcher := [], tick := q.tick, cfg := q.cfg,
                       phase := Draining, inFlight := q.inFlight, writers := q.writers, starts := q.starts)
            && q.reg == RunSystems(p.reg, at)
            && |q.delivered| == |p.delivered| + |p.dispatcher| && q.delivered[..|p.delivered|] == p.delivered
            && forall i :: 0 <= i < |p.dispatcher| ==>
                 q.delivered[|p.delivered| + i] == Delivery(p.dispatcher[i].event, p.dispatcher[i].drained, q.tick)
  {
    hide RunSystems, Spawned;
  }

  /** The poll falls on every 120th frame of an app with a files directory. */
  lemma PolledConfig(p: Proc, at: seq<nat>, poll: Option<Config>)
    ensures var q := Frame(p, at, poll);
            if p.hasDir && (p.tick + 1) % 120 == 0 && poll.Some?
            then q.cfg.log == (if poll.value.log < 10 then 10 else poll.value.log) &&
                 q.cfg.snap == if poll.value.snap < 60 then 60 else poll.value.snap
            else q.cfg == p.cfg
  {
    hide RunSystems, Spawned;
  }

  lemma PolledFields(p: Proc, at: seq<nat>, poll: Option<Config>)
    ensures var m, q := Polled(p, at, poll), Frame(p, at, poll);
            && m.reg == q.reg && m.version == q.version && m.tick == q.tick && m.base == q.base && m.hasDir == q.hasDir
            && m.cfg == q.cfg && m.inFlight == p.inFlight && m.writers == p.writers && m.starts == p.starts
  {
    hide RunSystems, Spawned;
  }

  lemma SpawnedWriter(q: Proc)
    requires WellFormed(SHAPES, q.reg)
    ensures Spawned(q) == Writer(Taken(q.reg, q.version, q.tick, q.base + q.tick),
                                 FileBytes(q.version, Encode(SHAPES, q.reg)), if q.hasDir then ToOpen else ToClear, false)
  {
    hide WellFormed, Encode, FileBytes;
  }

  lemma GuardedFrame(p: Proc, at: seq<nat>, poll: Option<Config>)
    requires var q := Frame(p, at, poll); q.cfg.snap > 0 && WellFormed(SHAPES, q.reg)
    ensures var q := Frame(p, at, poll);
            if q.tick % q.cfg.snap == 0 && !p.inFlight
            then q.starts == p.starts + [q.tick] && q.inFlight &&
                 q.writers == p.writers + [Writer(Taken(q.reg, q.version, q.tick, q.base + q.tick),
                                                  FileBytes(q.version, Encode(SHAPES, q.reg)),
                                                  if q.hasDir then ToOpen else ToClear, false)]
            else q.starts == p.starts && q.inFlight == p.inFlight && q.writers == p.writers
  {
    hide Spawned, Polled, WellFormed, Encode, FileBytes;
    PolledFields(p, at, poll);
    SpawnedWriter(Polled(p, at, poll));
  }

  lemma FrameIsNext(s: State, at: seq<nat>, poll: Option<Config>)
    requires s.proc.Some? && s.proc.value.phase == Idle
    ensures Next(s, Tick(at, poll)).proc == Some(Frame(s.proc.value, at, poll))
  {
    hide Polled, Guarded;
  }

  lemma FloorInForce(s: State)
    requires Rates(s) && s.proc.Some?
    ensures s.proc.value.cfg.snap >= 60
  {
  }

  /**
   * Over any run, a frame starts a snapshot exactly when its count is a multiple of the interval then in force
   * and no earlier snapshot is between its start and the clearing of the flag. The new writer holds the file
   * bytes of this frame's registry and begins by opening its temp file, or, without a files directory, by
   * clearing the flag.
   */
  lemma StartsExactlyWhenDue(s0: State, steps: seq<Step>, at: seq<nat>, poll: Option<Config>, p: Proc, q: Proc)
    requires Installed(s0) && Run(s0, steps).proc == Some(p) && p.phase == Idle
    requires Run(s0, steps + [Tick(at, poll)]).proc == Some(q)
    ensures q.tick == p.tick + 1 && q.cfg.snap >= 60 && WellFormed(SHAPES, q.reg)
    ensures if q.tick % q.cfg.snap == 0 && NoneUnderWay(p.writers)
            then q.starts == p.starts + [q.tick] && q.inFlight &&
                 q.writers == p.writers + [Writer(Taken(q.reg, q.version, q.tick, q.base + q.tick),
                                                  FileBytes(q.version, Encode(SHAPES, q.reg)),
                                                  if q.hasDir then ToOpen else ToClear, false)]
            else q.starts == p.starts && q.inFlight == p.inFlight && q.writers == p.writers
  {
    hide Run, Next, Inv, Rates, Frame, Populated, WellFormed, Encode, FileBytes, NoneUnderWay, FlagOk;
    var s := Run(s0, steps);
    var step := Tick(at, poll);
    RunSnoc(s0, steps, step);
    FrameIsNext(s, at, poll);
    Reachable(s0, steps);
    NextKeeps(s, step);
    RunKeepsRate(s0, steps);
    NextKeepsRate(s, step);
    FloorInForce(Next(s, step));
    InvFlag(s);
    FlagMeansUnderWay(p);
    InvFlag(Next(s, step));
    PopulatedIsWellFormed(q.reg, q.base + q.tick);
    CountedFrame(p, at, poll);
    GuardedFrame(p, at, poll);
  }

  /** Frames and input never end a process. */
  lemma StaysAlive(s0: State, steps: seq<Step>, step: Step)
    requires Run(s0, steps).proc.Some? && (step.Tick? || step.Input?)
    ensures Run(s0, steps + [step]).proc.Some?
  {
    hide Run, Polled, Guarded, Aim;
    RunSnoc(s0, steps, step);
  }

  /**
   * Besides a snapshot a frame counts itself in every heartbeat, may put the one follower elsewhere and delivers
   * what was drained before, in order; the configuration changes only when the poll, every 120 frames of an app
   * with a files directory, read a new one, of which it keeps what is at or above the floors.
   */
  lemma FrameChanges(s0: State, steps: seq<Step>, at: seq<nat>, poll: Option<Config>, p: Proc, q: Proc)
    requires Installed(s0) && Run(s0, steps).proc == Some(p) && p.phase == Idle
    requires Run(s0, steps + [Tick(at, poll)]).proc == Some(q)
    ensures |p.reg.pools| == |q.reg.pools| == 3 && |p.reg.pools[0]| == 3 && |p.reg.pools[1]| == 1
            && |p.reg.pools[1][0].fields| == 10
            && q.reg.alive == p.reg.alive && q.reg.free == p.reg.free && q.reg.pools[2] == p.reg.pools[2]
            && (forall i :: 0 <= i < 3 ==> |p.reg.pools[0][i].fields| == 1)
            && |q.reg.pools[0]| == 3
            && (forall i :: 0 <= i < 3 ==>
                  q.reg.pools[0][i] == Slot(p.reg.pools[0][i].entity, [(p.reg.pools[0][i].fields[0] + 1) % 0x1_0000_0000_0000_0000]))
            && q.reg.pools[1] == [Slot(p.reg.pools[1][0].entity,
                                       if |at| == 3 && at[0] < 0x1_0000_0000 && at[1] < 0x1_0000_0000 && at[2] < 0x1_0000_0000
                                       then at + p.reg.pools[1][0].fields[3..] else p.reg.pools[1][0].fields)]
    ensures q.queue == p.queue && q.dispatcher == [] && q.userTarget == p.userTarget && q.lastSaved == p.lastSaved
            && |q.delivered| == |p.delivered| + |p.dispatcher| && q.delivered[..|p.delivered|] == p.delivered
            && forall i :: 0 <= i < |p.dispatcher| ==>
                 q.delivered[|p.delivered| + i] == Delivery(p.dispatcher[i].event, p.dispatcher[i].drained, q.tick)
    ensures if p.hasDir && (p.tick + 1) % 120 == 0 && poll.Some?
            then q.cfg.log == (if poll.value.log < 10 then 10 else poll.value.log) &&
                 q.cfg.snap == if poll.value.snap < 60 then 60 else poll.value.snap
            else q.cfg == p.cfg
  {
    hide Run, Next, Inv, Frame, Populated;
    var s := Run(s0, steps);
    RunSnoc(s0, steps, Tick(at, poll));
    Reachable(s0, steps);
    InvFlag(s);
    FrameIsNext(s, at, poll);
    CountedFrame(p, at, poll);
    PolledConfig(p, at, poll);
    SystemsChange(p.reg, p.base + p.tick, at);
  }

  lemma SystemsChange(r: Reg, n: nat, at: seq<nat>)
    requires Populated(r, n)
    ensures var r' := RunSystems(r, at);
            && |r.pools| == |r'.pools| == 3 && |r.pools[0]| == |r'.pools[0]| == 3 && |r.pools[1]| == 1
            && |r.pools[1][0].fields| == 10
            && r'.alive == r.alive && r'.free == r.free && r'.pools[2] == r.pools[2]
            && (forall i :: 0 <= i < 3 ==> |r.pools[0][i].fields| == 1)
            && (forall i :: 0 <= i < 3 ==>
                  r'.pools[0][i] == Slot(r.pools[0][i].entity, [(r.pools[0][i].fields[0] + 1) % 0x1_0000_0000_0000_0000]))
            && r'.pools[1] == [Slot(r.pools[1][0].entity,
                                    if |at| == 3 && at[0] < 0x1_0000_0000 && at[1] < 0x1_0000_0000 && at[2] < 0x1_0000_0000
                                    then at + r.pools[1][0].fields[3..] else r.pools[1][0].fields)]
  {
    assert Entities(r.pools[2])[0] == 3;
  }

  // ---------------------------------------------------------------- launches and input

  /** A first start: three heartbeats at 0, and a follower at the origin aiming at it with rate 8. */
  function FirstRegistry(): Reg {
    Reg([0, 1, 2, 3], [],
        [[Slot(0, [0]), Slot(1, [0]), Slot(2, [0])],
         [Slot(3, [0, 0, 0, 0x3F80_0000, 0, 0, 0, 0x3F80_0000, 0x3F80_0000, 0x3F80_0000])],
         [Slot(3, [0, 0, 0, 0x4100_0000])]])
  }

  lemma FirstStart()
    ensures WithFollower(Fresh()) == FirstRegistry()
  {
    hide Fresh;
    FreshIsPopulated();
    FreshHeartbeats();
  }

  lemma RestoredStart(r: Reg, n: nat)
    requires Populated(r, n)
    ensures |r.pools| == 3 && FindFollower(r.pools[1], r.pools[2]).Some? && WithFollower(r) == r
  {
    assert Entities(r.pools[2])[0] == 3;
  }

  lemma StartedFields(version: Word, hasDir: bool, file: Option<Data>, lineage: nat, cfg: Config)
    requires |Fresh().pools| == 3 && FindFollower(Fresh().pools[1], Fresh().pools[2]).None?
    requires var read := Read(SHAPES, file, version); read.Ok? ==> |read.value.pools| == 3
    ensures var p, read := Started(version, hasDir, file, lineage, cfg), Read(SHAPES, file, version);
            && p.version == version && p.hasDir == hasDir && p.tick == 0 && !p.inFlight && p.phase == Idle
            && p.writers == [] && p.queue == [] && p.dispatcher == [] && p.delivered == [] && p.starts == []
            && p.cfg.log == (if cfg.log < 10 then 10 else cfg.log) && p.cfg.snap == (if cfg.snap < 60 then 60 else cfg.snap)
            && if hasDir && read.Ok?
               then p.reg == WithFollower(read.value) && p.base == lineage &&
                    p.userTarget == FindFollower(read.value.pools[1], read.value.pools[2]).Some?
               else p.reg == WithFollower(Fresh()) && p.base == 0 && !p.userTarget
  {
    hide Read, Fresh, WithFollower, FindFollower;
  }

  /**
   * A launch that can open a state file its build's version wrote brings back exactly the registry the file was
   * written from, as one the user has aimed; any other launch starts afresh. Only leftover temp files go.
   */
  lemma LaunchResumes(s0: State, steps: seq<Step>, version: Word, hasDir: bool, opens: bool, cfg: Config, stuck: set<string>)
    requires Installed(s0) && Run(s0, steps).proc.None?
    ensures Next(Run(s0, steps), Launch(version, hasDir, opens, cfg, stuck)).proc.Some?
    ensures var s, s' := Run(s0, steps), Next(Run(s0, steps), Launch(version, hasDir, opens, cfg, stuck));
            var p := s'.proc.value;
            && p.version == version && p.hasDir == hasDir && p.tick == 0 && !p.inFlight && p.phase == Idle
            && p.writers == [] && p.queue == [] && p.dispatcher == [] && p.delivered == [] && p.starts == []
            && p.cfg.log == (if cfg.log < 10 then 10 else cfg.log) && p.cfg.snap == (if cfg.snap < 60 then 60 else cfg.snap)
            && if hasDir && opens && s.onDisk.Some? && s.onDisk.value.version == version
               then p.reg == s.onDisk.value.reg && p.base == s.onDisk.value.lineage && p.userTarget
               else p.reg == FirstRegistry() && p.base == 0 && !p.userTarget
    ensures var s, s' := Run(s0, steps), Next(Run(s0, steps), Launch(version, hasDir, opens, cfg, stuck));
            && s'.onDisk == s.onDisk
            && (forall name :: name in s'.files <==>
                  name in s.files && (!hasDir || !(s0.path + ".tmp" <= name) || name in stuck))
            && forall name :: name in s'.files ==> s'.files[name] == s.files[name]
  {
    hide Run, Started, FirstRegistry, Fresh, WithFollower, FindFollower, Read, Populated, TakenBytes, History;
    Reachable(s0, steps);
    PathStays(s0, steps);
    FreshIsPopulated();
    FirstStart();
    var s := Run(s0, steps);
    if s.onDisk.Some? && opens {
      var t := s.onDisk.value;
      if version == t.version {
        RestoreSucceeds(s);
        RestoredStart(t.reg, t.lineage);
      } else {
        OtherVersionRefused(s, version);
      }
    } else {
      NothingToRead(version);
    }
    StartedFields(version, hasDir, OpenedFile(s, opens), if s.onDisk.Some? then s.onDisk.value.lineage else 0, cfg);
  }

  lemma NothingToRead(version: Word)
    ensures Read(SHAPES, None, version) == Err(OpenFailed)
  {
  }

  /**
   * A touch aims the follower and is remembered; a resize aims it only while no touch has been and nothing was
   * restored. Nothing but the target's three coordinates and that memory changes.
   */
  lemma InputAims(s0: State, steps: seq<Step>, to: seq<nat>, touch: bool, p: Proc, q: Proc)
    requires Installed(s0) && Run(s0, steps).proc == Some(p) && p.phase == Idle
    requires Run(s0, steps + [Input(to, touch)]).proc == Some(q)
    ensures q == p.(reg := q.reg, userTarget := p.userTarget || touch)
            && |p.reg.pools| == |q.reg.pools| == 3 && |p.reg.pools[2]| == |q.reg.pools[2]| == 1
            && q.reg.alive == p.reg.alive && q.reg.free == p.reg.free
            && q.reg.pools[0] == p.reg.pools[0] && q.reg.pools[1] == p.reg.pools[1]
            && |p.reg.pools[2][0].fields| == 4
            && q.reg.pools[2][0] ==
               if (touch || !p.userTarget) && |to| == 3 && to[0] < 0x1_0000_0000 && to[1] < 0x1_0000_0000 && to[2] < 0x1_0000_0000
               then Slot(p.reg.pools[2][0].entity, to + [p.reg.pools[2][0].fields[3]])
               else p.reg.pools[2][0]
  {
    hide Run, Inv, Populated, Aim;
    RunSnoc(s0, steps, Input(to, touch));
    Reachable(s0, steps);
    InvFlag(Run(s0, steps));
    AimChanges(p, p.base + p.tick, to, touch);
  }

  lemma AimChanges(p: Proc, n: nat, to: seq<nat>, touch: bool)
    requires Populated(p.reg, n)
    ensures var q := Aim(p, to, touch);
            && q == p.(reg := q.reg, userTarget := p.userTarget || touch)
            && |p.reg.pools| == |q.reg.pools| == 3 && |p.reg.pools[2]| == |q.reg.pools[2]| == 1
            && q.reg.alive == p.reg.alive && q.reg.free == p.reg.free
            && q.reg.pools[0] == p.reg.pools[0] && q.reg.pools[1] == p.reg.pools[1]
            && |p.reg.pools[2][0].fields| == 4
            && q.reg.pools[2][0] ==
               if (touch || !p.userTarget) && |to| == 3 && to[0] < 0x1_0000_0000 && to[1] < 0x1_0000_0000 && to[2] < 0x1_0000_0000
               then Slot(p.reg.pools[2][0].entity, to + [p.reg.pools[2][0].fields[3]])
               else p.reg.pools[2][0]
  {
    var f := p.reg.pools[2][0].fields;
    assert f[3..] == [f[3]];
  }
}
