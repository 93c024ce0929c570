/**
 * The durable snapshot protocol as a step system: the main thread's frames and drains, every writer
 * thread's own steps, user input, process kills and launches, in any order. A step that is not possible
 * in a state leaves it alone, so a run is any list of steps.
 */
module SnapshotProtocol {
  import opened Common
  import opened Bytes
  import opened SnapshotCodec
  import opened WriterSteps
  import opened AppState

  /**
   * `onDisk`, `taken` and `faithful` are history: what the state file was written from, every snapshot ever
   * captured, and whether every launch that found a state file restored it.
   */
  datatype State = State(
    path: string, files: Files, proc: Option<Proc>,
    onDisk: Option<Taken>, taken: seq<Taken>, faithful: bool)

  datatype Step =
    | Launch(version: Word, hasDir: bool, opens: bool, cfg: Config, stuck: set<string>)
    | Kill
    | Tick(at: seq<nat>, poll: Option<Config>)
    | Input(to: seq<nat>, touch: bool)
    | Drain(which: nat)
    | DrainDone
    | Write(who: nat, fate: Fate)

  function TakenBytes(t: Taken): Data {
    FileBytes(t.version, Payload(t.reg))
  }

  function OpenedFile(s: State, opens: bool): Option<Data> {
    if opens && s.path in s.files then Some(s.files[s.path]) else None
  }

  /** A launch keeps what is on disk if it needs nothing from it, or can open it and reads its version. */
  predicate Keeps(s: State, version: Word, hasDir: bool, opens: bool) {
    !hasDir || s.onDisk.None? || (opens && version == s.onDisk.value.version)
  }

  function AfterLaunch(s: State, version: Word, hasDir: bool, opens: bool, cfg: Config, stuck: set<string>): State {
    var lineage := if s.onDisk.Some? then s.onDisk.value.lineage else 0;
    s.(files := if hasDir then Swept(s.path, s.files, stuck) else s.files,
       proc := Some(Started(version, hasDir, OpenedFile(s, opens), lineage, cfg)),
       faithful := s.faithful && Keeps(s, version, hasDir, opens))
  }

  function AfterTick(s: State, p: Proc, at: seq<nat>, poll: Option<Config>): State {
    var q := Polled(p, at, poll);
    s.(proc := Some(Guarded(q)), taken := if Due(q) then s.taken + [Capture(q)] else s.taken)
  }

  /** The drain loop's try_dequeue: writers are separate producers, so any queued event may come out. */
  function AfterDrain(p: Proc, which: nat): Proc {
    if which < |p.queue|
    then p.(queue := p.queue[..which] + p.queue[which + 1..],
            dispatcher := p.dispatcher + [Pending(p.queue[which], p.tick)])
    else p
  }

  function Report(w: Writer): Saved {
    Saved(w.taken.tick, if |w.content| < 8 then 0 else |w.content| - 8, w.persisted)
  }

  predicate Renames(w: Writer, fate: Fate) {
    w.pc == ToRename && fate == Succeed
  }

  function AfterWrite(s: State, p: Proc, who: nat, fate: Fate): State
    requires who < |p.writers|
  {
    var w := p.writers[who];
    match w.pc
    case ToClear =>
      s.(proc := Some(p.(inFlight := false, writers := p.writers[who := w.(pc := ToPost)])))
    case ToPost =>
      s.(proc := Some(p.(queue := p.queue + [Report(w)],
                         writers := p.writers[..who] + p.writers[who + 1..])))
    case _ =>
      var (files, w') := DiskStep(s.path, s.files, w, fate);
      s.(files := files,
         onDisk := if Renames(w, fate) then Some(w.taken) else s.onDisk,
         proc := Some(p.(writers := p.writers[who := w'],
                         lastSaved := if Renames(w, fate) then w.taken.tick else p.lastSaved)))
  }

  function Next(s: State, step: Step): State {
    match s.proc
    case None => (
      match step
      case Launch(version, hasDir, opens, cfg, stuck) => AfterLaunch(s, version, hasDir, opens, cfg, stuck)
      case _ => s)
    case Some(p) =>
      match step
      case Launch(_, _, _, _, _) => s
      case Kill => s.(proc := None)
      case Tick(at, poll) => if p.phase == Idle then AfterTick(s, p, at, poll) else s
      case Input(to, touch) => if p.phase == Idle then s.(proc := Some(Aim(p, to, touch))) else s
      case Drain(which) => if p.phase == Draining then s.(proc := Some(AfterDrain(p, which))) else s
      case DrainDone => if p.phase == Draining && p.queue == [] then s.(proc := Some(p.(phase := Idle))) else s
      case Write(who, fate) => if who < |p.writers| then AfterWrite(s, p, who, fate) else s
  }

  function Run(s: State, steps: seq<Step>): State
    decreases |steps|
  {
    if steps == [] then s else Run(Next(s, steps[0]), steps[1..])
  }

  lemma {:induction false} RunSnoc(s: State, steps: seq<Step>, last: Step)
    ensures Run(s, steps + [last]) == Next(Run(s, steps), last)
    decreases |steps|
  {
    hide Next;
    if steps == [] {
      assert [] + [last] == [last] && [last][1..] == [];
      assert Run(Next(s, last), []) == Next(s, last);
    } else {
      assert (steps + [last])[1..] == steps[1..] + [last];
      RunSnoc(Next(s, steps[0]), steps[1..], last);
    }
  }

  /** A fresh install: no state file yet, whatever else lies in the directory. */
  predicate Installed(s: State) {
    s.path !in s.files && s.proc.None? && s.onDisk.None? && s.taken == [] && s.faithful
  }

  // ---------------------------------------------------------------- the registry every snapshot captures

  function AppReg(ticks: nat, transform: seq<nat>, follow: seq<nat>): Reg {
    Reg([0, 1, 2, 3], [],
        [[Slot(0, [ticks]), Slot(1, [ticks]), Slot(2, [ticks])], [Slot(3, transform)], [Slot(3, follow)]])
  }

  /** Three heartbeat entities that have each counted `n` frames (64-bit), and one follower. */
  predicate Populated(r: Reg, n: nat) {
    && |r.pools| == 3 && |r.pools[1]| == 1 && |r.pools[2]| == 1
    && Fits(TRANSFORM, r.pools[1][0].fields) && Fits(FOLLOW, r.pools[2][0].fields)
    && r == AppReg(n % COUNTER_WRAP, r.pools[1][0].fields, r.pools[2][0].fields)
  }

  lemma PopulatedPools(ticks: nat, transform: seq<nat>, follow: seq<nat>)
    requires ticks < COUNTER_WRAP && Fits(TRANSFORM, transform) && Fits(FOLLOW, follow)
    ensures SoundPools(SHAPES, [0, 1, 2, 3], AppReg(ticks, transform, follow).pools)
  {
    WordWidth();
    var pools := AppReg(ticks, transform, follow).pools;
    var alive: seq<Word> := [0, 1, 2, 3];
    assert SoundPool(HEARTBEAT, alive, pools[0]);
    assert SoundPool(TRANSFORM, alive, pools[1]) && SoundPool(FOLLOW, alive, pools[2]);
    assert SHAPES[2..] == [FOLLOW] && pools[2..] == [pools[2]];
    assert SoundPools(SHAPES[3..], alive, pools[3..]);
    assert SoundPools(SHAPES[2..], alive, pools[2..]);
    assert SHAPES[1..][1..] == SHAPES[2..] && pools[1..][1..] == pools[2..];
    assert SoundPools(SHAPES[1..], alive, pools[1..]);
  }

  lemma PopulatedIsWellFormed(r: Reg, n: nat)
    requires Populated(r, n)
    ensures WellFormed(SHAPES, r)
  {
    PopulatedPools(n % COUNTER_WRAP, r.pools[1][0].fields, r.pools[2][0].fields);
    assert r.alive + r.free == [0, 1, 2, 3];
  }

  /** Nothing was ever destroyed: the next index is new and becomes live. */
  lemma CreatedNext(r: Reg)
    requires r.free == [] && |r.alive| < 100 && forall i :: 0 <= i < |r.alive| ==> r.alive[i] < |r.alive|
    ensures Created(r) == (r.(alive := r.alive + [|r.alive|]), |r.alive|)
  {
    assert |r.alive| !in r.alive && Without([], |r.alive|) == [];
  }

  lemma HeartbeatAdded(alive: seq<Word>, pool: seq<Slot>, n: nat)
    requires n > 0 && |alive| < 100 && forall i :: 0 <= i < |alive| ==> alive[i] < |alive|
    ensures AddHeartbeats(Reg(alive, [], [pool, [], []]), n) ==
            AddHeartbeats(Reg(alive + [|alive|], [], [pool + [Slot(|alive|, [0])], [], []]), n - 1)
  {
    hide Created;
    CreatedNext(Reg(alive, [], [pool, [], []]));
  }

  lemma HeartbeatsDone(r: Reg)
    requires |r.pools| == 3
    ensures AddHeartbeats(r, 0) == r
  {
  }

  lemma FreshHeartbeats()
    ensures Fresh() == Reg([0, 1, 2], [], [[Slot(0, [0]), Slot(1, [0]), Slot(2, [0])], [], []])
  {
    hide AddHeartbeats;
    HeartbeatAdded([], [], 3);
    HeartbeatAdded([0], [Slot(0, [0])], 2);
    HeartbeatAdded([0, 1], [Slot(0, [0]), Slot(1, [0])], 1);
    HeartbeatsDone(Reg([0, 1, 2], [], [[Slot(0, [0]), Slot(1, [0]), Slot(2, [0])], [], []]));
    assert [] + [0] == [0] && [0] + [1] == [0, 1] && [0, 1] + [2] == [0, 1, 2];
    assert [] + [Slot(0, [0])] == [Slot(0, [0])];
    assert [Slot(0, [0])] + [Slot(1, [0])] == [Slot(0, [0]), Slot(1, [0])];
    assert [Slot(0, [0]), Slot(1, [0])] + [Slot(2, [0])] == [Slot(0, [0]), Slot(1, [0]), Slot(2, [0])];
  }

  lemma FreshIsPopulated()
    ensures |Fresh().pools| == 3 && FindFollower(Fresh().pools[1], Fresh().pools[2]).None?
    ensures Populated(WithFollower(Fresh()), 0)
  {
    hide AddHeartbeats;
    FreshHeartbeats();
    WordWidth();
    var r := WithFollower(Fresh());
    assert r.alive == [0, 1, 2, 3];
    assert r.pools[1] == [Slot(3, r.pools[1][0].fields)] && r.pools[2] == [Slot(3, r.pools[2][0].fields)];
    assert r.pools == AppReg(0, r.pools[1][0].fields, r.pools[2][0].fields).pools;
  }

  lemma SystemsKeepPopulation(r: Reg, n: nat, at: seq<nat>)
    requires Populated(r, n)
    ensures Populated(RunSystems(r, at), n + 1)
  {
    WordWidth();
    var r' := RunSystems(r, at);
    var t := r'.pools[1][0].fields;
    assert Fits(TRANSFORM, t);
    var expected := AppReg((n + 1) % COUNTER_WRAP, t, r.pools[2][0].fields);
    assert r'.pools[0] == expected.pools[0] by {
      assert (n % COUNTER_WRAP + 1) % COUNTER_WRAP == (n + 1) % COUNTER_WRAP;
    }
    assert r'.pools[1] == expected.pools[1] && r'.pools[2] == expected.pools[2];
    assert r'.pools == expected.pools;
  }

  lemma AimKeepsPopulation(p: Proc, n: nat, to: seq<nat>, touch: bool)
    requires Populated(p.reg, n)
    ensures Populated(Aim(p, to, touch).reg, n)
  {
    WordWidth();
    var r' := Aim(p, to, touch).reg;
    var f := r'.pools[2][0].fields;
    assert Fits(FOLLOW, f);
    assert r'.pools[2] == [Slot(3, f)];
    assert r'.pools == AppReg(n % COUNTER_WRAP, p.reg.pools[1][0].fields, f).pools;
  }

  // ---------------------------------------------------------------- invariants

  predicate Good(t: Taken) {
    Populated(t.reg, t.lineage)
  }

  predicate History(s: State) {
    forall i :: 0 <= i < |s.taken| ==> Good(s.taken[i])
  }

  /** The state file is exactly what some snapshot captured. */
  predicate DiskOk(s: State) {
    && (s.path in s.files <==> s.onDisk.Some?)
    && (s.onDisk.Some? ==> s.onDisk.value in s.taken && Good(s.onDisk.value) && s.files[s.path] == TakenBytes(s.onDisk.value))
  }

  predicate Busy(w: Writer) {
    w.pc != ToPost
  }

  /** The rename, if it is to happen, still lies ahead. */
  predicate Unsaved(w: Writer) {
    w.pc != ToClear && w.pc != ToPost
  }

  /** Only the youngest writer may still be between spawn and flag-clear, and the flag says whether it is. */
  predicate FlagOk(p: Proc) {
    && (forall i :: 0 <= i < |p.writers| - 1 ==> !Busy(p.writers[i]))
    && (p.inFlight <==> p.writers != [] && Busy(p.writers[|p.writers| - 1]))
  }

  predicate WriterOk(s: State, p: Proc, w: Writer) {
    && w.taken in s.taken && Good(w.taken) && w.content == TakenBytes(w.taken)
    && w.taken.version == p.version
    && w.taken.lineage == p.base + w.taken.tick && 1 <= w.taken.tick <= p.tick
    && (Unsaved(w) ==> w.taken.tick > p.lastSaved)
    && (!p.hasDir ==> w.pc == ToClear || w.pc == ToPost)
  }

  /** What a writer's temp file holds while it streams: a prefix of the content, all of it once flushed. */
  predicate TempOk(s: State, w: Writer) {
    var temp := TempName(s.path, w.taken.tick);
    && (w.pc == ToStream(false) ==> temp in s.files && s.files[temp] <= w.content)
    && (w.pc == ToRename ==> temp in s.files && s.files[temp] == w.content)
  }

  predicate Apart(p: Proc) {
    forall i, j :: 0 <= i < j < |p.writers| ==> p.writers[i].taken.tick < p.writers[j].taken.tick
  }

  predicate WritersOk(s: State, p: Proc) {
    && FlagOk(p) && Apart(p) && p.lastSaved <= p.tick
    && forall i :: 0 <= i < |p.writers| ==> WriterOk(s, p, p.writers[i]) && TempOk(s, p.writers[i])
  }

  /** Nothing on disk is ahead of what this process has saved or restored. */
  predicate LineageOk(s: State, p: Proc) {
    s.faithful && p.hasDir && s.onDisk.Some? ==> s.onDisk.value.lineage <= p.base + p.lastSaved
  }

  predicate ProcOk(s: State, p: Proc) {
    Populated(p.reg, p.base + p.tick) && WritersOk(s, p) && LineageOk(s, p)
  }

  predicate Inv(s: State) {
    History(s) && DiskOk(s) && (s.proc.Some? ==> ProcOk(s, s.proc.value))
  }

  // ---------------------------------------------------------------- every step keeps them

  /** A restore of an existing file by a build that can open it gives back exactly the captured registry. */
  lemma RestoreSucceeds(s: State)
    requires DiskOk(s) && s.onDisk.Some?
    ensures Read(SHAPES, OpenedFile(s, true), s.onDisk.value.version) == Ok(s.onDisk.value.reg)
  {
    var t := s.onDisk.value;
    PopulatedIsWellFormed(t.reg, t.lineage);
    RoundTrip(SHAPES, t.reg, t.version, []);
    assert TakenBytes(t) + [] == TakenBytes(t);
  }

  /** A build of another version refuses the file as kVersionMismatch. */
  lemma OtherVersionRefused(s: State, version: Word)
    requires DiskOk(s) && s.onDisk.Some? && version != s.onDisk.value.version
    ensures Read(SHAPES, OpenedFile(s, true), version) == Err(VersionMismatch)
  {
    HeaderBack(s.onDisk.value.version, Payload(s.onDisk.value.reg));
  }

  lemma StartedIsPopulated(s: State, version: Word, hasDir: bool, opens: bool, cfg: Config)
    requires DiskOk(s)
    ensures var lineage := if s.onDisk.Some? then s.onDisk.value.lineage else 0;
            var p := Started(version, hasDir, OpenedFile(s, opens), lineage, cfg);
            && Populated(p.reg, p.base)
            && p.base == if hasDir && s.onDisk.Some? && opens && version == s.onDisk.value.version then lineage else 0
  {
    FreshIsPopulated();
    if hasDir && s.onDisk.Some? && opens {
      var t := s.onDisk.value;
      if version == t.version {
        RestoreSucceeds(s);
        assert FindFollower(t.reg.pools[1], t.reg.pools[2]) == Some(3) by {
          assert Entities(t.reg.pools[2])[0] == 3;
        }
      } else {
        OtherVersionRefused(s, version);
      }
    }
  }

  lemma LaunchKeeps(s: State, version: Word, hasDir: bool, opens: bool, cfg: Config, stuck: set<string>)
    requires Inv(s) && s.proc.None?
    ensures Inv(AfterLaunch(s, version, hasDir, opens, cfg, stuck))
  {
    hide Populated, TakenBytes;
    StartedIsPopulated(s, version, hasDir, opens, cfg);
    SweepSpares(s, stuck);
  }

  lemma SweepSpares(s: State, stuck: set<string>)
    ensures var files := Swept(s.path, s.files, stuck);
            (s.path in files <==> s.path in s.files) && (s.path in files ==> files[s.path] == s.files[s.path])
  {
    assert |TempPrefix(s.path)| > |s.path|;
  }

  lemma SpawnedContent(q: Proc)
    ensures Spawned(q).content == TakenBytes(Capture(q))
  {
  }

  /** Writers do not notice steps that leave them, the disk and the flag alone. */
  lemma WritersCarry(s: State, s': State, p: Proc, q: Proc)
    requires WritersOk(s, p)
    requires s'.files == s.files && s'.path == s.path && s.taken <= s'.taken
    requires q.writers == p.writers && q.inFlight == p.inFlight && q.version == p.version && q.hasDir == p.hasDir
    requires q.base == p.base && q.lastSaved == p.lastSaved && p.tick <= q.tick
    ensures WritersOk(s', q)
  {
    hide Populated, TakenBytes;
    forall i | 0 <= i < |q.writers|
      ensures WriterOk(s', q, q.writers[i]) && TempOk(s', q.writers[i])
    {
      assert WriterOk(s, p, p.writers[i]) && TempOk(s, p.writers[i]);
    }
  }

  /** A new writer at the frame just counted, while none is busy. */
  lemma WriterAdded(s: State, q: Proc, w: Writer, starts: seq<nat>)
    requires WritersOk(s, q) && !q.inFlight && Busy(w) && WriterOk(s, q, w) && TempOk(s, w)
    requires forall i :: 0 <= i < |q.writers| ==> q.writers[i].taken.tick < w.taken.tick
    ensures WritersOk(s, q.(inFlight := true, writers := q.writers + [w], starts := starts))
  {
    hide Good, TakenBytes, TempOk, Unsaved;
    var q' := q.(inFlight := true, writers := q.writers + [w], starts := starts);
    forall i | 0 <= i < |q'.writers|
      ensures WriterOk(s, q', q'.writers[i]) && TempOk(s, q'.writers[i])
    {
      if i < |q.writers| {
        assert WriterOk(s, q, q.writers[i]);
      }
    }
  }

  lemma WritersGrow(s: State, s': State, p: Proc, q: Proc)
    requires WritersOk(s, p) && Good(Capture(q))
    requires s'.files == s.files && s'.path == s.path && s'.taken == s.taken + [Capture(q)]
    requires q == p.(reg := q.reg, delivered := q.delivered, dispatcher := q.dispatcher, tick := p.tick + 1, cfg := q.cfg, phase := q.phase)
    requires !p.inFlight
    ensures WritersOk(s', q.(inFlight := true, writers := q.writers + [Spawned(q)], starts := q.starts + [q.tick]))
  {
    hide Populated, TakenBytes, WritersOk, FileBytes, Payload;
    SpawnedContent(q);
    WritersCarry(s, s', p, q);
    OlderTicks(s, p);
    assert s'.taken[|s.taken|] == Capture(q);
    SavedBefore(s, p);
    WriterAdded(s', q, Spawned(q), q.starts + [q.tick]);
  }

  lemma OlderTicks(s: State, p: Proc)
    requires WritersOk(s, p)
    ensures forall i :: 0 <= i < |p.writers| ==> p.writers[i].taken.tick <= p.tick
  {
    hide Good, TakenBytes, TempOk;
    assert forall i :: 0 <= i < |p.writers| ==> WriterOk(s, p, p.writers[i]);
  }

  lemma SavedBefore(s: State, p: Proc)
    requires WritersOk(s, p)
    ensures p.lastSaved <= p.tick
  {
    hide Good, TakenBytes, TempOk;
  }

  lemma PolledFrame(p: Proc, at: seq<nat>, poll: Option<Config>)
    ensures var q := Polled(p, at, poll);
            && q == p.(reg := RunSystems(p.reg, at), delivered := q.delivered, dispatcher := q.dispatcher,
                       tick := p.tick + 1, cfg := q.cfg, phase := Draining)
  {
  }

  lemma TickKeeps(s: State, p: Proc, at: seq<nat>, poll: Option<Config>)
    requires Inv(s) && s.proc == Some(p)
    ensures Inv(AfterTick(s, p, at, poll))
  {
    hide Populated, TakenBytes, WritersOk, RunSystems, Polled;
    var q := Polled(p, at, poll);
    var s' := AfterTick(s, p, at, poll);
    PolledFrame(p, at, poll);
    SystemsKeepPopulation(p.reg, p.base + p.tick, at);
    assert WritersOk(s', s'.proc.value) by {
      if Due(q) {
        WritersGrow(s, s', p, q);
      } else {
        WritersCarry(s, s', p, q);
      }
    }
  }

  /** Steps that leave the writers, the disk and the counts alone. */
  lemma QuietKeeps(s: State, p: Proc, q: Proc)
    requires Inv(s) && s.proc == Some(p) && Populated(q.reg, q.base + q.tick)
    requires q == p.(reg := q.reg, userTarget := q.userTarget, queue := q.queue, dispatcher := q.dispatcher, phase := q.phase)
    ensures Inv(s.(proc := Some(q)))
  {
    hide Populated, TakenBytes, WritersOk;
    WritersCarry(s, s.(proc := Some(q)), p, q);
  }

  lemma ClearKeeps(s: State, p: Proc, who: nat, fate: Fate)
    requires Inv(s) && s.proc == Some(p) && who < |p.writers| && p.writers[who].pc == ToClear
    ensures Inv(AfterWrite(s, p, who, fate))
  {
    hide Populated, TakenBytes;
    var s' := AfterWrite(s, p, who, fate);
    var q := s'.proc.value;
    assert who == |p.writers| - 1;
    forall i | 0 <= i < |q.writers|
      ensures WriterOk(s', q, q.writers[i]) && TempOk(s', q.writers[i])
    {
      assert WriterOk(s, p, p.writers[i]) && TempOk(s, p.writers[i]);
    }
  }

  lemma WritersDrop(s: State, p: Proc, who: nat, q: Proc)
    requires WritersOk(s, p) && who < |p.writers| && p.writers[who].pc == ToPost
    requires q == p.(queue := q.queue, writers := p.writers[..who] + p.writers[who + 1..])
    ensures WritersOk(s, q)
  {
    hide Populated, TakenBytes;
    assert forall i :: 0 <= i < |q.writers| ==> q.writers[i] == p.writers[if i < who then i else i + 1];
    forall i | 0 <= i < |q.writers|
      ensures WriterOk(s, q, q.writers[i]) && TempOk(s, q.writers[i])
    {
      var k := if i < who then i else i + 1;
      assert WriterOk(s, p, p.writers[k]) && TempOk(s, p.writers[k]);
    }
  }

  lemma PostKeeps(s: State, p: Proc, who: nat, fate: Fate)
    requires Inv(s) && s.proc == Some(p) && who < |p.writers| && p.writers[who].pc == ToPost
    ensures Inv(AfterWrite(s, p, who, fate))
  {
    hide Populated, TakenBytes, WriterOk, TempOk;
    var s' := AfterWrite(s, p, who, fate);
    WritersDrop(s, p, who, s'.proc.value);
    WritersCarry(s, s', s'.proc.value, s'.proc.value);
  }

  /** The streaming part of a disk step: the state file is untouched, only this writer's temp changes. */
  lemma StreamEffect(s: State, p: Proc, w: Writer, fate: Fate)
    requires WriterOk(s, p, w) && TempOk(s, w) && w.pc != ToClear && w.pc != ToPost && !Renames(w, fate)
    ensures var (files, w') := DiskStep(s.path, s.files, w, fate);
            && (s.path in files <==> s.path in s.files)
            && (s.path in files ==> files[s.path] == s.files[s.path])
            && w' == w.(pc := w'.pc) && Busy(w') && TempOk(s.(files := files), w')
  {
    hide Populated, TakenBytes;
    TempNamesDiffer(s.path, w.taken.tick, w.taken.tick);
  }

  /** The rename: the state file becomes what the temp file held, all of it. */
  lemma RenameEffect(s: State, p: Proc, w: Writer, fate: Fate)
    requires WriterOk(s, p, w) && TempOk(s, w) && Renames(w, fate)
    ensures var (files, w') := DiskStep(s.path, s.files, w, fate);
            && s.path in files && files[s.path] == w.content
            && w' == w.(pc := ToClear, persisted := true)
  {
    TempNamesDiffer(s.path, w.taken.tick, w.taken.tick);
  }

  /** Only the youngest writer moves on; the others have nothing left to do with the disk. */
  lemma WritersProgress(s: State, s': State, p: Proc, q: Proc, w': Writer)
    requires WritersOk(s, p) && p.writers != []
    requires s'.path == s.path && s'.taken == s.taken
    requires var last := |p.writers| - 1;
             && Busy(p.writers[last]) && Busy(w') && w' == p.writers[last].(pc := w'.pc, persisted := w'.persisted)
             && q == p.(writers := p.writers[last := w'], lastSaved := q.lastSaved)
    requires q.lastSaved <= q.tick && WriterOk(s', q, w') && TempOk(s', w')
    ensures WritersOk(s', q)
  {
    hide Populated, TakenBytes;
    forall i | 0 <= i < |q.writers|
      ensures WriterOk(s', q, q.writers[i]) && TempOk(s', q.writers[i])
    {
      assert WriterOk(s, p, p.writers[i]);
    }
  }

  lemma DiskStepKeeps(s: State, p: Proc, who: nat, fate: Fate)
    requires Inv(s) && s.proc == Some(p) && who < |p.writers|
    requires p.writers[who].pc != ToClear && p.writers[who].pc != ToPost
    ensures Inv(AfterWrite(s, p, who, fate))
  {
    hide Populated, TakenBytes, DiskStep;
    var w := p.writers[who];
    var s' := AfterWrite(s, p, who, fate);
    var q := s'.proc.value;
    assert who == |p.writers| - 1;
    assert WriterOk(s, p, w) && TempOk(s, w);
    if Renames(w, fate) {
      RenameEffect(s, p, w, fate);
    } else {
      StreamEffect(s, p, w, fate);
    }
    assert WritersOk(s', q) by {
      WritersProgress(s, s', p, q, q.writers[who]);
    }
  }

  lemma WriteKeeps(s: State, p: Proc, who: nat, fate: Fate)
    requires Inv(s) && s.proc == Some(p) && who < |p.writers|
    ensures Inv(AfterWrite(s, p, who, fate))
  {
    hide Inv, AfterWrite;
    match p.writers[who].pc
    case ToClear => ClearKeeps(s, p, who, fate);
    case ToPost => PostKeeps(s, p, who, fate);
    case _ => DiskStepKeeps(s, p, who, fate);
  }

  lemma InvPopulated(s: State, p: Proc)
    requires Inv(s) && s.proc == Some(p)
    ensures Populated(p.reg, p.base + p.tick) && Inv(s.(proc := None))
  {
  }

  lemma AimCounts(p: Proc, to: seq<nat>, touch: bool)
    ensures var q := Aim(p, to, touch); q == p.(reg := q.reg, userTarget := q.userTarget)
  {
  }

  lemma NextKeeps(s: State, step: Step)
    requires Inv(s)
    ensures Inv(Next(s, step))
  {
    hide Inv, Populated, Aim, AfterLaunch, AfterTick, AfterWrite;
    match s.proc
    case None =>
      if step.Launch? {
        LaunchKeeps(s, step.version, step.hasDir, step.opens, step.cfg, step.stuck);
      }
    case Some(p) =>
      InvPopulated(s, p);
      match step
      case Launch(_, _, _, _, _) =>
      case Kill =>
      case Tick(at, poll) => TickKeeps(s, p, at, poll);
      case Input(to, touch) =>
        AimKeepsPopulation(p, p.base + p.tick, to, touch);
        AimCounts(p, to, touch);
        QuietKeeps(s, p, Aim(p, to, touch));
      case Drain(which) => QuietKeeps(s, p, AfterDrain(p, which));
      case DrainDone => QuietKeeps(s, p, p.(phase := Idle));
      case Write(who, fate) =>
        if who < |p.writers| {
          WriteKeeps(s, p, who, fate);
        }
  }

  lemma {:induction false} RunKeeps(s: State, steps: seq<Step>)
    requires Inv(s)
    ensures Inv(Run(s, steps))
    decreases |steps|
  {
    if steps != [] {
      NextKeeps(s, steps[0]);
      RunKeeps(Next(s, steps[0]), steps[1..]);
    }
  }
}
