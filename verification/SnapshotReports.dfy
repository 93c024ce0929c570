/**
 * What a snapshot's report says is true: over any run a posted event is marked persisted exactly when this
 * process renamed that snapshot's temp file over the state file, and its size is that of the payload.
 */
module SnapshotReports {
  import opened Common
  import opened Bytes
  import opened SnapshotCodec
  import opened WriterSteps
  import opened AppState
  import opened SnapshotProtocol
  import opened SnapshotGuarantees
  import opened SnapshotStarts
  import StateFile

  /** The ticks of the snapshots that the process alive after these steps has renamed into place. */
  function RenamedTicks(s: State, steps: seq<Step>, before: set<nat>): set<nat>
    decreases |steps|
  {
    if steps == [] then before else RenamedTicks(Next(s, steps[0]), steps[1..], RenamedNow(s, steps[0], before))
  }

  function RenamedNow(s: State, step: Step, before: set<nat>): set<nat> {
    if s.proc.None? then {}
    else if Saves(s, step) then before + {s.proc.value.writers[step.who].taken.tick}
    else before
  }

  /** The event has been posted: it is queued, in the dispatcher, or delivered. */
  predicate Posted(p: Proc, e: Saved) {
    || e in p.queue
    || (exists i :: 0 <= i < |p.dispatcher| && p.dispatcher[i].event == e)
    || (exists i :: 0 <= i < |p.delivered| && p.delivered[i].event == e)
  }

  /** A posted event tells the truth, and is about an earlier snapshot than the one under way. */
  predicate TellsTruth(p: Proc, renamed: set<nat>, e: Saved) {
    && e.size == 136 && (e.persisted <==> e.tick in renamed) && e.tick <= p.tick
    && (p.writers != [] && Busy(p.writers[|p.writers| - 1]) ==> e.tick < p.writers[|p.writers| - 1].taken.tick)
  }

  predicate KnowsFate(renamed: set<nat>, w: Writer) {
    && (w.persisted <==> w.taken.tick in renamed)
    && (Unsaved(w) ==> !w.persisted)
  }

  ghost predicate Truthful(p: Proc, renamed: set<nat>) {
    && (forall i :: 0 <= i < |p.writers| ==> KnowsFate(renamed, p.writers[i]))
    && (forall e: Saved :: Posted(p, e) ==> TellsTruth(p, renamed, e))
    && (forall t :: t in renamed ==> t <= p.tick)
  }

  ghost predicate AllTruthful(s: State, renamed: set<nat>) {
    s.proc.Some? ==> Truthful(s.proc.value, renamed)
  }

  // ---------------------------------------------------------------- every step keeps it

  lemma NothingPosted(p: Proc)
    requires p.writers == [] && p.queue == [] && p.dispatcher == [] && p.delivered == []
    ensures Truthful(p, {})
  {
  }

  /** Nothing is posted or renamed, and the writers are the same. */
  lemma QuietTruthful(p: Proc, q: Proc, renamed: set<nat>)
    requires Truthful(p, renamed)
    requires q.writers == p.writers && p.tick <= q.tick && forall e: Saved :: Posted(q, e) ==> Posted(p, e)
    ensures Truthful(q, renamed)
  {
    forall e: Saved | Posted(q, e) ensures TellsTruth(q, renamed, e) {
      assert TellsTruth(p, renamed, e);
    }
  }

  lemma PolledPosts(p: Proc, at: seq<nat>, poll: Option<Config>, e: Saved)
    requires Posted(Frame(p, at, poll), e)
    ensures Posted(p, e)
  {
    hide RunSystems, Spawned;
    var q := Frame(p, at, poll);
    if i :| 0 <= i < |q.delivered| && q.delivered[i].event == e {
      if i < |p.delivered| {
        assert q.delivered[i] == p.delivered[i];
      } else {
        assert q.delivered[i].event == p.dispatcher[i - |p.delivered|].event;
      }
    }
  }

  lemma DrainPosts(p: Proc, which: nat, e: Saved)
    requires Posted(AfterDrain(p, which), e)
    ensures Posted(p, e)
  {
    var q := AfterDrain(p, which);
    if i :| 0 <= i < |q.dispatcher| && q.dispatcher[i].event == e {
      if i < |p.dispatcher| {
        assert q.dispatcher[i] == p.dispatcher[i];
      } else {
        assert which < |p.queue| && e == p.queue[which];
      }
    }
  }

  lemma PostPosts(p: Proc, who: nat, q: Proc, e: Saved)
    requires who < |p.writers| && Posted(q, e)
    requires q == p.(queue := p.queue + [Report(p.writers[who])], writers := q.writers)
    ensures Posted(p, e) || e == Report(p.writers[who])
  {
  }

  /** A frame adds at most one writer, younger than every snapshot before it. */
  lemma SpawnTruthful(p: Proc, q: Proc, w: Writer, renamed: set<nat>)
    requires Truthful(p, renamed) && q.tick == p.tick + 1
    requires q.writers == p.writers + [w] && w.taken.tick == q.tick && !w.persisted
    requires forall e: Saved :: Posted(q, e) ==> Posted(p, e)
    ensures Truthful(q, renamed)
  {
    forall i | 0 <= i < |q.writers| ensures KnowsFate(renamed, q.writers[i]) {
      if i < |p.writers| {
        assert KnowsFate(renamed, p.writers[i]);
      }
    }
    forall e: Saved | Posted(q, e) ensures TellsTruth(q, renamed, e) {
      assert TellsTruth(p, renamed, e);
    }
  }

  lemma FrameWriters(p: Proc, at: seq<nat>, poll: Option<Config>)
    ensures var q := Frame(p, at, poll);
            && q.tick == p.tick + 1
            && (q.writers == p.writers ||
                (|q.writers| == |p.writers| + 1 && q.writers == p.writers + [q.writers[|p.writers|]] &&
                 q.writers[|p.writers|].taken.tick == q.tick && !q.writers[|p.writers|].persisted))
  {
    hide RunSystems, Payload;
  }

  lemma TickTruthful(p: Proc, at: seq<nat>, poll: Option<Config>, renamed: set<nat>)
    requires Truthful(p, renamed)
    ensures Truthful(Frame(p, at, poll), renamed)
  {
    hide Frame, Posted, Truthful;
    var q := Frame(p, at, poll);
    FrameWriters(p, at, poll);
    forall e: Saved | Posted(q, e) ensures Posted(p, e) {
      PolledPosts(p, at, poll, e);
    }
    if q.writers == p.writers {
      QuietTruthful(p, q, renamed);
    } else {
      SpawnTruthful(p, q, q.writers[|p.writers|], renamed);
    }
  }

  lemma ReportIsTrue(s: State, p: Proc, who: nat, renamed: set<nat>)
    requires Inv(s) && s.proc == Some(p) && Truthful(p, renamed) && who < |p.writers| && p.writers[who].pc == ToPost
    ensures TellsTruth(p, renamed, Report(p.writers[who]))
  {
    hide TakenBytes, Good, TempOk, LineageOk, Posted;
    var w := p.writers[who];
    assert WriterOk(s, p, w) && KnowsFate(renamed, w);
    StateFile.TakenSize(w.taken);
  }

  lemma PostTruthful(s: State, p: Proc, who: nat, q: Proc, renamed: set<nat>)
    requires Inv(s) && s.proc == Some(p) && Truthful(p, renamed) && who < |p.writers| && p.writers[who].pc == ToPost
    requires q == p.(queue := p.queue + [Report(p.writers[who])], writers := p.writers[..who] + p.writers[who + 1..])
    ensures Truthful(q, renamed)
  {
    hide Inv, Posted, Report;
    InvFlag(s);
    ReportIsTrue(s, p, who, renamed);
    assert forall i :: 0 <= i < |q.writers| ==> q.writers[i] == p.writers[if i < who then i else i + 1];
    forall e: Saved | Posted(q, e) ensures TellsTruth(q, renamed, e) {
      PostPosts(p, who, q, e);
      assert TellsTruth(p, renamed, e);
      LastAfterPost(p, who, q.writers);
    }
  }

  /** If a writer is still under way after another posted, it was the last one before too. */
  lemma LastAfterPost(p: Proc, who: nat, left: seq<Writer>)
    requires who < |p.writers| && p.writers[who].pc == ToPost && left == p.writers[..who] + p.writers[who + 1..]
    requires forall i :: 0 <= i < |p.writers| - 1 ==> !Busy(p.writers[i])
    ensures left != [] && Busy(left[|left| - 1]) ==> left[|left| - 1] == p.writers[|p.writers| - 1]
  {
  }

  /** What one step of a writer does to it: it keeps its snapshot, and is marked persisted exactly by its rename. */
  lemma WriterMoves(s: State, p: Proc, who: nat, fate: Fate)
    requires who < |p.writers| && p.writers[who].pc != ToPost
    ensures var q := AfterWrite(s, p, who, fate).proc.value;
            var w, w' := p.writers[who], q.writers[who];
            && q == p.(writers := p.writers[who := w'], inFlight := q.inFlight, lastSaved := q.lastSaved)
            && w'.taken == w.taken && (Busy(w') ==> Busy(w))
            && w'.persisted == (w.persisted || Renames(w, fate)) && (Unsaved(w') ==> Unsaved(w) && !Renames(w, fate))
  {
  }

  lemma MoveTruthful(p: Proc, q: Proc, who: nat, w': Writer, renamed: set<nat>, renames: bool)
    requires Truthful(p, renamed) && Apart(p) && who < |p.writers| && p.writers[who].taken.tick <= p.tick
    requires var w := p.writers[who];
             && w'.taken == w.taken && (Busy(w') ==> Busy(w))
             && w'.persisted == (w.persisted || renames) && (Unsaved(w') ==> Unsaved(w) && !renames)
             && (renames ==> Busy(w) && who == |p.writers| - 1)
    requires q == p.(writers := p.writers[who := w'], inFlight := q.inFlight, lastSaved := q.lastSaved)
    ensures Truthful(q, if renames then renamed + {p.writers[who].taken.tick} else renamed)
  {
    hide Posted;
    var after := if renames then renamed + {p.writers[who].taken.tick} else renamed;
    forall i | 0 <= i < |q.writers| ensures KnowsFate(after, q.writers[i]) {
      assert KnowsFate(renamed, p.writers[i]);
    }
    forall e: Saved | Posted(q, e) ensures TellsTruth(q, after, e) {
      SamePosted(p, q, e);
      assert TellsTruth(p, renamed, e);
    }
  }

  lemma SamePosted(p: Proc, q: Proc, e: Saved)
    requires q.queue == p.queue && q.dispatcher == p.dispatcher && q.delivered == p.delivered
    ensures Posted(q, e) <==> Posted(p, e)
  {
  }

  lemma WriteTruthful(s: State, p: Proc, who: nat, fate: Fate, renamed: set<nat>)
    requires Inv(s) && s.proc == Some(p) && Truthful(p, renamed) && who < |p.writers|
    ensures Truthful(AfterWrite(s, p, who, fate).proc.value, RenamedNow(s, Write(who, fate), renamed))
  {
    hide Truthful, TakenBytes, Good, TempOk, DiskStep;
    var w := p.writers[who];
    assert WriterOk(s, p, w);
    if w.pc == ToPost {
      PostTruthful(s, p, who, AfterWrite(s, p, who, fate).proc.value, renamed);
    } else {
      WriterMoves(s, p, who, fate);
      var q := AfterWrite(s, p, who, fate).proc.value;
      MoveTruthful(p, q, who, q.writers[who], renamed, Renames(w, fate));
    }
  }

  lemma NextTruthful(s: State, step: Step, renamed: set<nat>)
    requires Inv(s) && AllTruthful(s, renamed)
    ensures AllTruthful(Next(s, step), RenamedNow(s, step, renamed))
  {
    hide Inv, Truthful, Posted, Frame, AfterDrain, AfterWrite, Aim, Started;
    match s.proc
    case None =>
      if step.Launch? {
        LaunchPostsNothing(s, step);
        NothingPosted(Next(s, step).proc.value);
      }
    case Some(p) =>
      match step
      case Launch(_, _, _, _, _) =>
      case Kill =>
      case Tick(at, poll) =>
        if p.phase == Idle {
          FrameIsNext(s, at, poll);
          TickTruthful(p, at, poll, renamed);
        }
      case Input(to, touch) =>
        AimCounts(p, to, touch);
        SamePosts(p, Aim(p, to, touch), renamed);
      case Drain(which) => DrainTruthful(p, which, renamed);
      case DrainDone => SamePosts(p, p.(phase := Idle), renamed);
      case Write(who, fate) =>
        if who < |p.writers| {
          WriteTruthful(s, p, who, fate, renamed);
          WriteLeavesProc(s, p, who, fate);
        }
  }

  lemma LaunchPostsNothing(s: State, step: Step)
    requires s.proc.None? && step.Launch?
    ensures var p := Next(s, step).proc;
            p.Some? && p.value.writers == [] && p.value.queue == [] && p.value.dispatcher == [] && p.value.delivered == []
  {
  }

  lemma SamePosts(p: Proc, q: Proc, renamed: set<nat>)
    requires Truthful(p, renamed) && q == p.(reg := q.reg, userTarget := q.userTarget, phase := q.phase)
    ensures Truthful(q, renamed)
  {
    hide Truthful, Posted;
    forall e: Saved | Posted(q, e) ensures Posted(p, e) {
      SamePosted(p, q, e);
    }
    QuietTruthful(p, q, renamed);
  }

  lemma DrainTruthful(p: Proc, which: nat, renamed: set<nat>)
    requires Truthful(p, renamed)
    ensures Truthful(AfterDrain(p, which), renamed)
  {
    hide Truthful, Posted;
    var q := AfterDrain(p, which);
    forall e: Saved | Posted(q, e) ensures Posted(p, e) {
      DrainPosts(p, which, e);
    }
    QuietTruthful(p, q, renamed);
  }

  lemma {:induction false} RunTruthful(s: State, steps: seq<Step>, renamed: set<nat>)
    requires Inv(s) && AllTruthful(s, renamed)
    ensures AllTruthful(Run(s, steps), RenamedTicks(s, steps, renamed))
    decreases |steps|
  {
    hide Inv, AllTruthful, Next, RenamedNow;
    if steps != [] {
      NextKeeps(s, steps[0]);
      NextTruthful(s, steps[0], renamed);
      RunTruthful(Next(s, steps[0]), steps[1..], RenamedNow(s, steps[0], renamed));
    }
  }

  /**
   * Over any run, every report of the running process, queued, in the dispatcher or delivered, says persisted
   * if and only if that snapshot was renamed over the state file, and gives the size of the payload, 136 bytes.
   */
  lemma ReportsTellTheTruth(s0: State, steps: seq<Step>, e: Saved)
    requires Installed(s0) && Run(s0, steps).proc.Some? && Posted(Run(s0, steps).proc.value, e)
    ensures e.persisted <==> e.tick in RenamedTicks(s0, steps, {})
    ensures e.size == 136 && e.tick in Run(s0, steps).proc.value.starts
  {
    hide Run, RenamedTicks, TellsTruth, Posted;
    RunTruthful(s0, steps, {});
    RunKeepsEvents(s0, steps);
    PostedWasStarted(Run(s0, steps).proc.value, e);
    Told(Run(s0, steps).proc.value, RenamedTicks(s0, steps, {}), e);
  }

  lemma Told(p: Proc, renamed: set<nat>, e: Saved)
    requires Truthful(p, renamed) && Posted(p, e)
    ensures e.size == 136 && (e.persisted <==> e.tick in renamed)
  {
    hide Posted;
    assert TellsTruth(p, renamed, e);
  }

  lemma PostedWasStarted(p: Proc, e: Saved)
    requires EventsOk(p) && Posted(p, e)
    ensures e.tick in p.starts
  {
    if i :| 0 <= i < |p.dispatcher| && p.dispatcher[i].event == e {
      assert PendingTicks(p.dispatcher)[i] == e.tick;
    } else if i :| 0 <= i < |p.delivered| && p.delivered[i].event == e {
      assert DeliveredTicks(p.delivered)[i] == e.tick;
    } else {
      var i :| 0 <= i < |p.queue| && p.queue[i] == e;
      assert QueueTicks(p.queue)[i] == e.tick;
    }
    assert e.tick in Whereabouts(p);
    assert e.tick in multiset(p.starts);
  }

  // ---------------------------------------------------------------- and it always comes

  /** How many successful steps of its own a writer is from having posted. */
  function StepsLeft(pc: Pc): nat {
    match pc
    case ToOpen => 5
    case ToStream(failed) => if failed then 3 else 4
    case ToRename => 3
    case ToClear => 2
    case ToPost => 1
  }

  /** A writer's step goes forward or changes nothing; one whose operation succeeds always goes forward. */
  lemma NeverBack(path: string, files: Files, w: Writer, fate: Fate)
    ensures var w' := DiskStep(path, files, w, fate).1;
            && StepsLeft(w'.pc) <= StepsLeft(w.pc)
            && (fate == Succeed && Unsaved(w) ==> StepsLeft(w'.pc) < StepsLeft(w.pc))
            && (w'.persisted && !w.persisted ==> w.pc == ToRename && fate == Succeed)
  {
  }

  function OwnSteps(who: nat, n: nat): seq<Step> {
    if n == 0 then [] else [Write(who, Succeed)] + OwnSteps(who, n - 1)
  }

  lemma FirstOwnStep(s: State, who: nat, n: nat)
    requires n > 0
    ensures Run(s, OwnSteps(who, n)) == Run(Next(s, Write(who, Succeed)), OwnSteps(who, n - 1))
  {
    hide Next;
    assert OwnSteps(who, n)[1..] == OwnSteps(who, n - 1);
  }

  lemma LastOwnStep(s: State, p: Proc, who: nat)
    requires s.proc == Some(p) && who < |p.writers| && p.writers[who].pc == ToPost
    ensures var q := Run(s, OwnSteps(who, 1)).proc;
            && q.Some? && q.value.writers == p.writers[..who] + p.writers[who + 1..]
            && q.value.queue == p.queue + [Report(p.writers[who])] && q.value.inFlight == p.inFlight
  {
    FirstOwnStep(s, who, 1);
  }

  /** Whether a writer left alone from here on, with every operation succeeding, ends up persisted. */
  predicate WillPersist(w: Writer) {
    w.persisted || w.pc == ToOpen || w.pc == ToStream(false) || w.pc == ToRename
  }

  lemma OwnDiskStep(path: string, files: Files, w: Writer)
    requires Unsaved(w)
    ensures var w' := DiskStep(path, files, w, Succeed).1;
            && w'.taken == w.taken && w'.content == w.content && Busy(w')
            && StepsLeft(w'.pc) == StepsLeft(w.pc) - 1 && WillPersist(w') == WillPersist(w)
  {
  }

  lemma WriteIsNext(s: State, p: Proc, who: nat)
    requires s.proc == Some(p) && who < |p.writers|
    ensures Next(s, Write(who, Succeed)) == AfterWrite(s, p, who, Succeed)
  {
    hide AfterWrite;
  }

  lemma OneOwnStep(s: State, p: Proc, who: nat)
    requires s.proc == Some(p) && who < |p.writers| && Busy(p.writers[who])
    ensures var q := Next(s, Write(who, Succeed)).proc;
            && q.Some? && |q.value.writers| == |p.writers| && q.value.queue == p.queue
            && var w, w' := p.writers[who], q.value.writers[who];
               && q.value.writers == p.writers[who := w'] && w'.taken == w.taken && w'.content == w.content
               && StepsLeft(w'.pc) == StepsLeft(w.pc) - 1 && WillPersist(w') == WillPersist(w)
               && (w.pc == ToClear ==> !q.value.inFlight && w'.pc == ToPost)
  {
    hide DiskStep, Next;
    WriteIsNext(s, p, who);
    if Unsaved(p.writers[who]) {
      OwnDiskStep(s.path, s.files, p.writers[who]);
    }
  }

  /**
   * No started snapshot can get stuck: from any state, its writer's own remaining operations, at most five, end
   * with the flag clear and the report queued, marked persisted unless something had failed already.
   */
  lemma {:induction false} ReportComes(s: State, p: Proc, who: nat)
    requires s.proc == Some(p) && who < |p.writers| && Busy(p.writers[who])
    ensures var q := Run(s, OwnSteps(who, StepsLeft(p.writers[who].pc))).proc;
            && 2 <= StepsLeft(p.writers[who].pc) <= 5
            && q.Some? && !q.value.inFlight && q.value.writers == p.writers[..who] + p.writers[who + 1..]
            && |q.value.queue| == |p.queue| + 1 && q.value.queue[..|p.queue|] == p.queue
            && q.value.queue[|p.queue|].tick == p.writers[who].taken.tick
            && q.value.queue[|p.queue|].persisted == WillPersist(p.writers[who])
    decreases StepsLeft(p.writers[who].pc)
  {
    hide Run, Next, OwnSteps;
    var n := StepsLeft(p.writers[who].pc);
    var s' := Next(s, Write(who, Succeed));
    OneOwnStep(s, p, who);
    FirstOwnStep(s, who, n);
    var p' := s'.proc.value;
    assert p'.writers[..who] == p.writers[..who] && p'.writers[who + 1..] == p.writers[who + 1..];
    if Busy(p'.writers[who]) {
      ReportComes(s', p', who);
    } else {
      LastOwnStep(s', p', who);
    }
  }
}
