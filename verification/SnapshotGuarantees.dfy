/** What the snapshot protocol guarantees over whole runs, from a fresh install on. */
module SnapshotGuarantees {
  import opened Common
  import opened Bytes
  import opened SnapshotCodec
  import opened WriterSteps
  import opened AppState
  import opened SnapshotProtocol

  lemma Reachable(s0: State, steps: seq<Step>)
    requires Installed(s0)
    ensures Inv(Run(s0, steps))
  {
    RunKeeps(s0, steps);
  }

  // ---------------------------------------------------------------- crash consistency

  /** `t` is what the registry was, and how far the count had got, right after some frame of the run. */
  predicate SeenAfterFrame(s: State, steps: seq<Step>, t: Taken) {
    exists k :: 0 < k <= |steps| && steps[k - 1].Tick? && HasNow(Run(s, steps[..k]), t)
  }

  predicate HasNow(s: State, t: Taken) {
    s.proc.Some? && Capture(s.proc.value) == t
  }

  lemma LaterSeen(s: State, steps: seq<Step>, t: Taken)
    requires steps != [] && SeenAfterFrame(Next(s, steps[0]), steps[1..], t)
    ensures SeenAfterFrame(s, steps, t)
  {
    var k :| 0 < k <= |steps[1..]| && steps[1..][k - 1].Tick? && HasNow(Run(Next(s, steps[0]), steps[1..][..k]), t);
    assert steps[..k + 1][1..] == steps[1..][..k];
    assert HasNow(Run(s, steps[..k + 1]), t);
  }

  lemma CapturedByTick(s: State, step: Step, t: Taken)
    requires t in Next(s, step).taken && t !in s.taken
    ensures step.Tick? && HasNow(Next(s, step), t)
  {
    hide RunSystems, Payload;
    var p := s.proc.value;
    if step.Tick? {
      var q := Polled(p, step.at, step.poll);
      assert t == Capture(q) == Capture(Guarded(q));
    }
  }

  /** No snapshot is invented: each was the live registry at a frame boundary of the run. */
  lemma {:induction false} TakenWasSeen(s: State, steps: seq<Step>, t: Taken)
    requires t in Run(s, steps).taken
    ensures t in s.taken || SeenAfterFrame(s, steps, t)
    decreases |steps|
  {
    if steps != [] {
      TakenWasSeen(Next(s, steps[0]), steps[1..], t);
      if SeenAfterFrame(Next(s, steps[0]), steps[1..], t) {
        LaterSeen(s, steps, t);
      } else if t !in s.taken {
        CapturedByTick(s, steps[0], t);
        assert steps[..1][1..] == [] && steps[..1][0] == steps[0];
        assert Run(s, steps[..1]) == Run(Next(s, steps[0]), []);
        assert HasNow(Run(s, steps[..1]), t);
      }
    }
  }

  /**
   * Whatever is interleaved, failed or killed, the state file is absent or is exactly the header and the
   * complete encoding of the registry as some frame of the run left it.
   */
  lemma CrashConsistency(s0: State, steps: seq<Step>)
    requires Installed(s0) && s0.path in Run(s0, steps).files
    ensures exists t: Taken :: SeenAfterFrame(s0, steps, t) && WellFormed(SHAPES, t.reg)
              && Run(s0, steps).files[s0.path] == FileBytes(t.version, Encode(SHAPES, t.reg))
  {
    Reachable(s0, steps);
    PathStays(s0, steps);
    var s := Run(s0, steps);
    var t := s.onDisk.value;
    TakenWasSeen(s0, steps, t);
    PopulatedIsWellFormed(t.reg, t.lineage);
    assert s.files[s0.path] == TakenBytes(t);
  }

  lemma {:induction false} PathStays(s: State, steps: seq<Step>)
    ensures Run(s, steps).path == s.path
    decreases |steps|
  {
    if steps != [] {
      PathStays(Next(s, steps[0]), steps[1..]);
    }
  }

  /** At most one writer is between spawn and flag-clear, and live writers use different temp names. */
  lemma WritersApart(s0: State, steps: seq<Step>, i: nat, j: nat)
    requires Installed(s0)
    requires var s := Run(s0, steps); s.proc.Some? && i < j < |s.proc.value.writers|
    ensures var ws := Run(s0, steps).proc.value.writers;
            && (!Busy(ws[i]) || !Busy(ws[j]))
            && TempName(s0.path, ws[i].taken.tick) != TempName(s0.path, ws[j].taken.tick)
  {
    Reachable(s0, steps);
    var ws := Run(s0, steps).proc.value.writers;
    TempNamesDiffer(s0.path, ws[i].taken.tick, ws[j].taken.tick);
  }

  // ---------------------------------------------------------------- durability

  function DiskLineage(s: State): nat {
    if s.onDisk.Some? then s.onDisk.value.lineage else 0
  }

  function Combined(pool: seq<Slot>): nat {
    if pool == [] then 0 else (if |pool[0].fields| == 1 then pool[0].fields[0] else 0) + Combined(pool[1..])
  }

  lemma CombinedSum(a: Slot, b: Slot, c: Slot)
    requires |a.fields| == |b.fields| == |c.fields| == 1
    ensures Combined([a, b, c]) == a.fields[0] + b.fields[0] + c.fields[0]
  {
    assert [a, b, c][1..] == [b, c] && [b, c][1..] == [c] && [c][1..] == [];
    assert Combined([c]) == c.fields[0];
    assert Combined([b, c]) == b.fields[0] + Combined([c]);
  }

  lemma CombinedOfThree(r: Reg, n: nat)
    requires Populated(r, n)
    ensures Combined(r.pools[0]) == 3 * (n % COUNTER_WRAP)
  {
    var t := n % COUNTER_WRAP;
    CombinedSum(Slot(0, [t]), Slot(1, [t]), Slot(2, [t]));
  }

  /** Renaming over the state file is the only step that changes what is on disk. */
  predicate Saves(s: State, step: Step) {
    && s.proc.Some? && step.Write? && step.who < |s.proc.value.writers|
    && Renames(s.proc.value.writers[step.who], step.fate)
  }

  lemma SaveRaises(s: State, step: Step)
    requires Inv(s) && Saves(s, step)
    ensures s.proc.value.writers[step.who].taken.tick > s.proc.value.lastSaved
    ensures DiskLineage(Next(s, step)) == s.proc.value.base + s.proc.value.writers[step.who].taken.tick
    ensures s.faithful ==> DiskLineage(s) < DiskLineage(Next(s, step))
  {
    hide Populated, TakenBytes, DiskStep, TempOk, Good, DiskOk, History;
    var p := s.proc.value;
    assert WriterOk(s, p, p.writers[step.who]);
  }

  lemma SaveIsRemembered(s: State, p: Proc, who: nat)
    requires s.proc == Some(p) && who < |p.writers| && Renames(p.writers[who], Succeed)
    ensures var q := AfterWrite(s, p, who, Succeed).proc; q.Some? && q.value.lastSaved == p.writers[who].taken.tick
  {
    hide DiskStep;
  }

  lemma StepRaises(s: State, step: Step)
    requires Inv(s) && Next(s, step).faithful
    ensures s.faithful && DiskLineage(s) <= DiskLineage(Next(s, step))
    ensures !Saves(s, step) ==> Next(s, step).onDisk == s.onDisk
  {
    hide Populated, TakenBytes, Started, RunSystems;
    if Saves(s, step) {
      SaveRaises(s, step);
    }
  }

  lemma {:induction false} RunRaises(s: State, steps: seq<Step>)
    requires Inv(s) && Run(s, steps).faithful
    ensures s.faithful && DiskLineage(s) <= DiskLineage(Run(s, steps))
    decreases |steps|
  {
    if steps != [] {
      NextKeeps(s, steps[0]);
      RunRaises(Next(s, steps[0]), steps[1..]);
      StepRaises(s, steps[0]);
    }
  }

  lemma {:induction false} RunOver(s: State, first: seq<Step>, more: seq<Step>)
    ensures Run(s, first + more) == Run(Run(s, first), more)
    decreases |first|
  {
    if first == [] {
      assert first + more == more;
    } else {
      assert (first + more)[1..] == first[1..] + more;
      RunOver(Next(s, first[0]), first[1..], more);
    }
  }

  /**
   * Over any history in which every launch that found a state file could open it and read its version, the
   * progress on disk never goes back, and each rename moves it strictly forward.
   */
  lemma DurabilityMonotone(s0: State, steps: seq<Step>, more: seq<Step>)
    requires Installed(s0) && Run(s0, steps + more).faithful
    ensures DiskLineage(Run(s0, steps)) <= DiskLineage(Run(s0, steps + more))
    ensures forall step :: Saves(Run(s0, steps), step) ==>
              DiskLineage(Run(s0, steps)) < DiskLineage(Next(Run(s0, steps), step))
  {
    Reachable(s0, steps);
    RunOver(s0, steps, more);
    var s := Run(s0, steps);
    RunRaises(s, more);
    forall step | Saves(s, step)
      ensures DiskLineage(s) < DiskLineage(Next(s, step))
    {
      SaveRaises(s, step);
    }
  }

  /**
   * What a restore reads back: three counters that each hold the frames the file stands for, so their sum
   * never decreases while those frames stay below 2^64.
   */
  lemma HeartbeatsOnDisk(s0: State, steps: seq<Step>)
    requires Installed(s0) && Run(s0, steps).onDisk.Some?
    ensures var s := Run(s0, steps);
            var read := Read(SHAPES, OpenedFile(s, true), s.onDisk.value.version);
            && read.Ok? && |read.value.pools| == 3
            && Combined(read.value.pools[0]) == 3 * (DiskLineage(s) % COUNTER_WRAP)
  {
    Reachable(s0, steps);
    var s := Run(s0, steps);
    RestoreSucceeds(s);
    CombinedOfThree(s.onDisk.value.reg, s.onDisk.value.lineage);
  }

  /** A launch carries the progress over exactly when it keeps the file, or there was none to lose. */
  lemma LaunchCarriesOver(s0: State, steps: seq<Step>, version: Word, opens: bool, cfg: Config, stuck: set<string>)
    requires Installed(s0) && Run(s0, steps).proc.None?
    ensures var s := Run(s0, steps);
            var p := Next(s, Launch(version, true, opens, cfg, stuck)).proc.value;
            p.base == DiskLineage(s) <==> Keeps(s, version, true, opens) || DiskLineage(s) == 0
  {
    Reachable(s0, steps);
    StartedIsPopulated(Run(s0, steps), version, true, opens, cfg);
  }

  // ---------------------------------------------------------------- population

  /** Three heartbeat entities and one follower, which is not one of them. */
  predicate Census(r: Reg) {
    && |r.alive| == 4 && r.free == [] && |r.pools| == 3
    && |r.pools[0]| == HEARTBEAT_ENTITY_COUNT && |r.pools[1]| == |r.pools[2]| == 1
    && FindFollower(r.pools[1], r.pools[2]).Some?
    && r.pools[1][0].entity !in Entities(r.pools[0])
  }

  lemma PopulatedCensus(r: Reg, n: nat)
    requires Populated(r, n)
    ensures Census(r)
  {
    assert Entities(r.pools[2])[0] == 3;
  }

  /**
   * However often the app is killed and launched, a running process has exactly three heartbeat entities
   * and one follower, and its counters add up to the restored base plus three per frame.
   */
  lemma PopulationStable(s0: State, steps: seq<Step>)
    requires Installed(s0) && Run(s0, steps).proc.Some?
    ensures var p := Run(s0, steps).proc.value;
            && Census(p.reg)
            && Combined(p.reg.pools[0]) == 3 * ((p.base + p.tick) % COUNTER_WRAP)
            && (p.base + p.tick < COUNTER_WRAP ==> Combined(p.reg.pools[0]) == 3 * p.base + 3 * p.tick)
  {
    hide Populated, Run, WritersOk;
    Reachable(s0, steps);
    var p := Run(s0, steps).proc.value;
    CombinedOfThree(p.reg, p.base + p.tick);
    PopulatedCensus(p.reg, p.base + p.tick);
  }

  // ---------------------------------------------------------------- snapshot rate

  predicate Windowed(starts: seq<nat>) {
    forall i :: 0 <= i && i + 2 < |starts| ==> starts[i] / 120 < starts[i + 2] / 120
  }

  predicate Ascending(starts: seq<nat>, tick: nat) {
    && (forall i, j :: 0 <= i < j < |starts| ==> starts[i] < starts[j])
    && forall i :: 0 <= i < |starts| ==> 1 <= starts[i] <= tick
  }

  /** Starts of the current poll window are multiples of the interval that window runs with. */
  predicate RateOk(p: Proc) {
    && p.cfg.snap >= MIN_SNAPSHOT_INTERVAL_TICKS && p.cfg.log >= MIN_TICK_LOG_INTERVAL
    && Ascending(p.starts, p.tick) && Windowed(p.starts)
    && forall i :: 0 <= i < |p.starts| && p.starts[i] / 120 == p.tick / 120 ==> p.starts[i] % p.cfg.snap == 0
  }

  lemma NextMultiple(a: nat, b: nat, n: nat)
    requires n > 0 && a < b && a % n == 0 && b % n == 0
    ensures b >= a + n
  {
    var k := b / n - a / n;
    assert b - a == n * k;
    assert k >= 1;
  }

  /** Three multiples of an interval of at least 60 span two poll windows. */
  lemma MultiplesApart(a: nat, b: nat, c: nat, n: nat)
    requires n >= 60 && a < b < c && a % n == 0 && b % n == 0 && c % n == 0
    ensures a / 120 < c / 120
  {
    NextMultiple(a, b, n);
    NextMultiple(b, c, n);
  }

  lemma SameWindow(a: nat, b: nat, c: nat)
    requires a <= b <= c && a / 120 == c / 120
    ensures b / 120 == c / 120
  {
  }

  lemma WindowMoves(a: nat, tick: nat)
    requires a <= tick
    ensures a / 120 == (tick + 1) / 120 ==> (tick + 1) % 120 != 0 && a / 120 == tick / 120
  {
  }

  lemma TickKeepsRate(p: Proc, q: Proc)
    requires RateOk(p) && q.starts == p.starts && q.tick == p.tick + 1
    requires q.cfg == p.cfg || (q.tick % 120 == 0 && q.cfg.snap >= 60 && q.cfg.log >= 10)
    ensures RateOk(q)
  {
    forall i | 0 <= i < |p.starts| && p.starts[i] / 120 == q.tick / 120
      ensures p.starts[i] % q.cfg.snap == 0
    {
      WindowMoves(p.starts[i], p.tick);
    }
  }

  lemma StartKeepsRate(q: Proc)
    requires RateOk(q) && q.tick % q.cfg.snap == 0 && q.tick >= 1
    requires forall i :: 0 <= i < |q.starts| ==> q.starts[i] < q.tick
    ensures RateOk(q.(starts := q.starts + [q.tick]))
  {
    WindowGrows(q.starts, q.tick, q.cfg.snap);
    hide Windowed;
  }

  lemma WindowGrows(starts: seq<nat>, tick: nat, snap: nat)
    requires Ascending(starts, tick) && Windowed(starts) && snap >= 60 && tick % snap == 0
    requires forall i :: 0 <= i < |starts| ==> starts[i] < tick
    requires forall i :: 0 <= i < |starts| && starts[i] / 120 == tick / 120 ==> starts[i] % snap == 0
    ensures Windowed(starts + [tick])
  {
    if |starts| >= 2 {
      var a, b := starts[|starts| - 2], starts[|starts| - 1];
      assert a < b < tick;
      if a / 120 == tick / 120 {
        SameWindow(a, b, tick);
        MultiplesApart(a, b, tick, snap);
      }
      assert a / 120 <= tick / 120;
    }
  }

  lemma FrameKeepsRate(p: Proc, at: seq<nat>, poll: Option<Config>)
    requires RateOk(p)
    ensures RateOk(Frame(p, at, poll))
  {
    hide RunSystems, Spawned, RateOk;
    var q := Polled(p, at, poll);
    RateFacts(p);
    TickKeepsRate(p, q);
    if Due(q) {
      StartKeepsRate(q);
      RateOnly(q.(starts := q.starts + [q.tick]), Guarded(q));
    } else {
      RateOnly(q, Guarded(q));
    }
  }

  lemma RateFacts(p: Proc)
    requires RateOk(p)
    ensures p.cfg.snap >= 60 && p.cfg.log >= 10
    ensures forall i :: 0 <= i < |p.starts| ==> p.starts[i] <= p.tick
  {
  }

  lemma RateOnly(p: Proc, q: Proc)
    ensures p.cfg == q.cfg && p.tick == q.tick && p.starts == q.starts && RateOk(p) ==> RateOk(q)
  {
  }

  predicate Rates(s: State) {
    s.proc.Some? ==> RateOk(s.proc.value)
  }

  lemma OnlyFramesCount(s: State, p: Proc, step: Step)
    requires s.proc == Some(p) && !(step.Tick? && p.phase == Idle)
    ensures var q := Next(s, step).proc; q.Some? ==> q.value.cfg == p.cfg && q.value.tick == p.tick && q.value.starts == p.starts
  {
    hide AfterWrite, AfterTick, AfterLaunch, Aimed;
    if step.Write? && step.who < |p.writers| {
      WriteCountsNothing(s, p, step.who, step.fate);
    }
  }

  lemma WriteCountsNothing(s: State, p: Proc, who: nat, fate: Fate)
    requires who < |p.writers|
    ensures var q := AfterWrite(s, p, who, fate).proc;
            q.Some? && q.value.cfg == p.cfg && q.value.tick == p.tick && q.value.starts == p.starts
  {
    hide DiskStep;
  }

  lemma NextKeepsRate(s: State, step: Step)
    requires Rates(s)
    ensures Rates(Next(s, step))
  {
    hide RunSystems, RateOk, Spawned, Polled, Guarded, AfterDrain, AfterWrite, Aim;
    if s.proc.None? {
      if step.Launch? {
        var p := Next(s, step).proc.value;
        assert p.cfg == Clamp(step.cfg) && p.starts == [] && p.tick == 0;
        FreshRate(p);
      }
    } else {
      var p := s.proc.value;
      if step.Tick? && p.phase == Idle {
        FrameKeepsRate(p, step.at, step.poll);
      } else if Next(s, step).proc.Some? {
        OnlyFramesCount(s, p, step);
        RateOnly(p, Next(s, step).proc.value);
      }
    }
  }

  lemma FreshRate(p: Proc)
    requires p.starts == [] && p.cfg.snap >= 60 && p.cfg.log >= 10
    ensures RateOk(p)
  {
  }

  lemma {:induction false} RunKeepsRate(s: State, steps: seq<Step>)
    requires Rates(s)
    ensures Rates(Run(s, steps))
    decreases |steps|
  {
    if steps != [] {
      NextKeepsRate(s, steps[0]);
      RunKeepsRate(Next(s, steps[0]), steps[1..]);
    }
  }

  lemma {:induction false} WindowCount(starts: seq<nat>, j: nat)
    requires Windowed(starts) && 2 * j < |starts|
    ensures starts[2 * j] / 120 >= j
  {
    if j > 0 {
      WindowCount(starts, j - 1);
    }
  }

  /**
   * Under any sequence of config edits both intervals stay at or above their floors, no 120-tick poll window
   * sees three snapshots start, and the first T ticks of a process see at most 2 * (T / 120 + 1).
   */
  lemma SnapshotRateBound(s0: State, steps: seq<Step>)
    requires Installed(s0) && Run(s0, steps).proc.Some?
    ensures var p := Run(s0, steps).proc.value;
            && p.cfg.snap >= MIN_SNAPSHOT_INTERVAL_TICKS && p.cfg.log >= MIN_TICK_LOG_INTERVAL
            && (forall i :: 0 <= i && i + 2 < |p.starts| ==> p.starts[i] / 120 < p.starts[i + 2] / 120)
            && |p.starts| <= 2 * (p.tick / 120 + 1)
  {
    RunKeepsRate(s0, steps);
    var p := Run(s0, steps).proc.value;
    if |p.starts| > 2 * (p.tick / 120 + 1) {
      WindowCount(p.starts, p.tick / 120 + 1);
    }
  }

  // ---------------------------------------------------------------- saved events

  function WriterTicks(ws: seq<Writer>): (ts: seq<nat>)
    ensures |ts| == |ws| && forall i :: 0 <= i < |ws| ==> ts[i] == ws[i].taken.tick
  {
    seq(|ws|, i requires 0 <= i < |ws| => ws[i].taken.tick)
  }

  function QueueTicks(es: seq<Saved>): (ts: seq<nat>)
    ensures |ts| == |es| && forall i :: 0 <= i < |es| ==> ts[i] == es[i].tick
  {
    seq(|es|, i requires 0 <= i < |es| => es[i].tick)
  }

  function PendingTicks(es: seq<Pending>): (ts: seq<nat>)
    ensures |ts| == |es| && forall i :: 0 <= i < |es| ==> ts[i] == es[i].event.tick
  {
    seq(|es|, i requires 0 <= i < |es| => es[i].event.tick)
  }

  function DeliveredTicks(es: seq<Delivery>): (ts: seq<nat>)
    ensures |ts| == |es| && forall i :: 0 <= i < |es| ==> ts[i] == es[i].event.tick
  {
    seq(|es|, i requires 0 <= i < |es| => es[i].event.tick)
  }

  /** Where each started snapshot's report is: with its writer, queued, in the dispatcher, or delivered. */
  function Whereabouts(p: Proc): multiset<nat> {
    multiset(WriterTicks(p.writers)) + multiset(QueueTicks(p.queue)) +
    multiset(PendingTicks(p.dispatcher)) + multiset(DeliveredTicks(p.delivered))
  }

  predicate EventsOk(p: Proc) {
    && multiset(p.starts) == Whereabouts(p)
    && (forall i :: 0 <= i < |p.dispatcher| ==> p.dispatcher[i].drained == p.tick)
    && forall i :: 0 <= i < |p.delivered| ==> p.delivered[i].delivered == p.delivered[i].drained + 1 <= p.tick
  }

  lemma SeqSplit<T>(s: seq<T>, i: nat)
    requires i < |s|
    ensures multiset(s) == multiset(s[..i] + s[i + 1..]) + multiset{s[i]}
  {
    assert s == s[..i] + [s[i]] + s[i + 1..];
  }

  lemma Flushed(w: multiset<nat>, q: multiset<nat>, d: seq<nat>, e: seq<nat>)
    ensures w + q + multiset(d) + multiset(e) == w + q + multiset([]) + multiset(e + d)
  {
  }

  lemma PolledTicks(p: Proc, at: seq<nat>, poll: Option<Config>)
    ensures var q := Polled(p, at, poll);
            && DeliveredTicks(q.delivered) == DeliveredTicks(p.delivered) + PendingTicks(p.dispatcher)
            && PendingTicks(q.dispatcher) == []
  {
    hide RunSystems;
  }

  lemma PolledKeepsEvents(p: Proc, at: seq<nat>, poll: Option<Config>)
    requires EventsOk(p)
    ensures EventsOk(Polled(p, at, poll))
  {
    hide RunSystems, WriterTicks, QueueTicks, PendingTicks, DeliveredTicks;
    PolledTicks(p, at, poll);
    Flushed(multiset(WriterTicks(p.writers)), multiset(QueueTicks(p.queue)), PendingTicks(p.dispatcher), DeliveredTicks(p.delivered));
  }

  lemma OneMore(starts: seq<nat>, w: seq<nat>, q: multiset<nat>, d: multiset<nat>, e: multiset<nat>, t: nat)
    requires multiset(starts) == multiset(w) + q + d + e
    ensures multiset(starts + [t]) == multiset(w + [t]) + q + d + e
  {
  }

  lemma TicksGrow(ws: seq<Writer>, w: Writer)
    ensures WriterTicks(ws + [w]) == WriterTicks(ws) + [w.taken.tick]
  {
  }

  lemma SpawnKeepsEvents(q: Proc)
    requires EventsOk(q)
    ensures EventsOk(Guarded(q))
  {
    hide Payload, WriterTicks, QueueTicks, PendingTicks, DeliveredTicks;
    if Due(q) {
      TicksGrow(q.writers, Spawned(q));
      OneMore(q.starts, WriterTicks(q.writers), multiset(QueueTicks(q.queue)), multiset(PendingTicks(q.dispatcher)),
              multiset(DeliveredTicks(q.delivered)), q.tick);
    }
  }

  lemma FrameKeepsEvents(p: Proc, at: seq<nat>, poll: Option<Config>)
    requires EventsOk(p)
    ensures EventsOk(Frame(p, at, poll))
  {
    PolledKeepsEvents(p, at, poll);
    SpawnKeepsEvents(Polled(p, at, poll));
  }

  lemma Picked(w: multiset<nat>, before: seq<nat>, after: seq<nat>, d: seq<nat>, t: nat, e: multiset<nat>)
    requires multiset(before) == multiset(after) + multiset{t}
    ensures w + multiset(before) + multiset(d) + e == w + multiset(after) + multiset(d + [t]) + e
  {
  }

  lemma DrainKeepsEvents(p: Proc, which: nat)
    requires EventsOk(p)
    ensures EventsOk(AfterDrain(p, which))
  {
    if which < |p.queue| {
      var q := AfterDrain(p, which);
      var ts := QueueTicks(p.queue);
      SeqSplit(ts, which);
      assert QueueTicks(q.queue) == ts[..which] + ts[which + 1..];
      assert PendingTicks(q.dispatcher) == PendingTicks(p.dispatcher) + [ts[which]];
      Picked(multiset(WriterTicks(p.writers)), ts, QueueTicks(q.queue), PendingTicks(p.dispatcher), ts[which],
             multiset(DeliveredTicks(p.delivered)));
    }
  }

  lemma PostKeepsEvents(p: Proc, who: nat, q: Proc)
    requires EventsOk(p) && who < |p.writers|
    requires q == p.(queue := p.queue + [Report(p.writers[who])], writers := p.writers[..who] + p.writers[who + 1..])
    ensures EventsOk(q)
  {
    var ts := WriterTicks(p.writers);
    SeqSplit(ts, who);
    assert WriterTicks(q.writers) == ts[..who] + ts[who + 1..];
    assert QueueTicks(q.queue) == QueueTicks(p.queue) + [ts[who]];
  }

  lemma DiskStepKeepsTaken(path: string, files: Files, w: Writer, fate: Fate)
    ensures DiskStep(path, files, w, fate).1.taken == w.taken
  {
  }

  lemma ProgressKeepsEvents(p: Proc, who: nat, w: Writer, q: Proc)
    requires EventsOk(p) && who < |p.writers| && w.taken == p.writers[who].taken
    requires q == p.(inFlight := q.inFlight, lastSaved := q.lastSaved, writers := p.writers[who := w])
    ensures EventsOk(q)
  {
    assert WriterTicks(q.writers) == WriterTicks(p.writers);
  }

  lemma WriteKeepsEvents(s: State, p: Proc, who: nat, fate: Fate)
    requires EventsOk(p) && who < |p.writers|
    ensures EventsOk(AfterWrite(s, p, who, fate).proc.value)
  {
    hide EventsOk, DiskStep;
    var q := AfterWrite(s, p, who, fate).proc.value;
    if p.writers[who].pc == ToPost {
      PostKeepsEvents(p, who, q);
    } else {
      DiskStepKeepsTaken(s.path, s.files, p.writers[who], fate);
      ProgressKeepsEvents(p, who, q.writers[who], q);
    }
  }

  predicate Events(s: State) {
    s.proc.Some? ==> EventsOk(s.proc.value)
  }

  lemma EventsOnly(p: Proc, q: Proc)
    ensures q == p.(reg := q.reg, userTarget := q.userTarget, phase := q.phase) && EventsOk(p) ==> EventsOk(q)
  {
  }

  lemma NextKeepsEvents(s: State, step: Step)
    requires Events(s)
    ensures Events(Next(s, step))
  {
    hide EventsOk, RunSystems, Spawned, Polled, Guarded, AfterWrite, AfterDrain;
    if s.proc.None? {
      if step.Launch? {
        StartsQuiet(Next(s, step).proc.value);
      }
    } else {
      var p := s.proc.value;
      match step
      case Launch(_, _, _, _, _) =>
      case Kill =>
      case Tick(at, poll) => FrameKeepsEvents(p, at, poll);
      case Input(to, touch) => EventsOnly(p, Aim(p, to, touch));
      case Drain(which) => DrainKeepsEvents(p, which);
      case DrainDone => EventsOnly(p, p.(phase := Idle));
      case Write(who, fate) =>
        if who < |p.writers| {
          WriteKeepsEvents(s, p, who, fate);
          WriteLeavesProc(s, p, who, fate);
        }
    }
  }

  lemma WriteLeavesProc(s: State, p: Proc, who: nat, fate: Fate)
    requires who < |p.writers|
    ensures AfterWrite(s, p, who, fate).proc.Some?
  {
  }

  lemma StartsQuiet(p: Proc)
    requires p.starts == [] && p.writers == [] && p.queue == [] && p.dispatcher == [] && p.delivered == []
    ensures EventsOk(p)
  {
  }

  lemma {:induction false} RunKeepsEvents(s: State, steps: seq<Step>)
    requires Events(s)
    ensures Events(Run(s, steps))
    decreases |steps|
  {
    if steps != [] {
      NextKeepsEvents(s, steps[0]);
      RunKeepsEvents(Next(s, steps[0]), steps[1..]);
    }
  }

  /**
   * Every snapshot a process started has its one report either still to come from its writer, or queued, or
   * in the dispatcher, or delivered; and what one frame drained the next frame's update delivers.
   */
  lemma EventConservation(s0: State, steps: seq<Step>)
    requires Installed(s0) && Run(s0, steps).proc.Some?
    ensures var p := Run(s0, steps).proc.value;
            && multiset(p.starts) == Whereabouts(p)
            && (forall i :: 0 <= i < |p.delivered| ==> p.delivered[i].delivered == p.delivered[i].drained + 1)
            && (forall i, j :: 0 <= i < j < |p.starts| ==> p.starts[i] != p.starts[j])
  {
    RunKeepsEvents(s0, steps);
    RunKeepsRate(s0, steps);
  }
}
