/**
 * The Choreographer-driven frame ticker and the activity callbacks around it: how many callbacks are pending,
 * how many native ticks a vsync runs, and what the reported deltas add up to.
 */
module FrameTicker {
  import opened Common

  /** What reaches the native side. */
  datatype Native = Started | Resumed | Paused | Destroyed | Ticked(delta: real)

  datatype State = State(active: bool, last: int, pending: nat, nativeStarted: bool, log: seq<Native>)

  datatype Step = ActivityCreated | ActivityResumed | ActivityPaused | ActivityDestroyed | Vsync(time: int)

  /** Choreographer: posts pile up, removal takes every pending post, a vsync runs what was pending. */
  class Choreographer {
    var pending: nat

    constructor ()
      ensures pending == 0
    {
      pending := 0;
    }

    method PostFrameCallback()
      modifies this
      ensures pending == old(pending) + 1
    {
      pending := pending + 1;
    }

    method RemoveFrameCallback()
      modifies this
      ensures pending == 0
    {
      pending := 0;
    }
  }

  function Delta(last: int, time: int): real {
    if last == 0 then 0.0 else (time - last) as real / 1000000000.0
  }

  class Ticker {
    const choreographer: Choreographer
    var active: bool
    var lastFrameTimeNanos: int
    var nativeStarted: bool
    var log: seq<Native>

    function View(): State
      reads this, choreographer
    {
      State(active, lastFrameTimeNanos, choreographer.pending, nativeStarted, log)
    }

    constructor ()
      ensures View() == State(false, 0, 0, false, []) && fresh(choreographer)
    {
      choreographer := new Choreographer();
      active, lastFrameTimeNanos, nativeStarted, log := false, 0, false, [];
    }

    method Start()
      modifies this, choreographer
      ensures View() == if old(active) then old(View())
                        else old(View()).(active := true, last := 0, pending := old(choreographer.pending) + 1)
    {
      if active {
        return;
      }
      active := true;
      lastFrameTimeNanos := 0;
      choreographer.PostFrameCallback();
    }

    method Stop()
      modifies this, choreographer
      ensures View() == old(View()).(active := false, pending := 0)
    {
      active := false;
      choreographer.RemoveFrameCallback();
    }

    method DoFrame(frameTimeNanos: int)
      modifies this, choreographer
      ensures View() == Frame(old(View()), frameTimeNanos)
    {
      if !active {
        return;
      }
      var deltaSeconds := 0.0;
      if lastFrameTimeNanos != 0 {
        deltaSeconds := (frameTimeNanos - lastFrameTimeNanos) as real / 1000000000.0;
      }
      lastFrameTimeNanos := frameTimeNanos;
      log := log + [Ticked(deltaSeconds)];
      choreographer.PostFrameCallback();
    }

    /** One display frame: every callback pending at its start runs once; what they post waits for the next. */
    method RunVsync(time: int)
      modifies this, choreographer
      ensures View() == Frames(old(View()).(pending := 0), old(choreographer.pending), time)
    {
      var due := choreographer.pending;
      choreographer.pending := 0;
      for i := 0 to due
        invariant Frames(View(), due - i, time) == Frames(old(View()).(pending := 0), due, time)
      {
        DoFrame(time);
      }
    }

    method OnActivityCreated()
      modifies this
      ensures View() == if old(nativeStarted) then old(View())
                        else old(View()).(nativeStarted := true, log := old(log) + [Started])
    {
      if !nativeStarted {
        nativeStarted := true;
        log := log + [Started];
      }
    }

    method OnActivityResumed()
      modifies this, choreographer
      ensures View() == Next(old(View()), ActivityResumed)
    {
      log := log + [Resumed];
      Start();
    }

    method OnActivityPaused()
      modifies this, choreographer
      ensures View() == Next(old(View()), ActivityPaused)
    {
      Stop();
      log := log + [Paused];
    }
  }

  function Frame(s: State, time: int): State {
    if !s.active then s
    else s.(last := time, pending := s.pending + 1, log := s.log + [Ticked(Delta(s.last, time))])
  }

  function Frames(s: State, due: nat, time: int): State
    decreases due
  {
    if due == 0 then s else Frames(Frame(s, time), due - 1, time)
  }

  function Next(s: State, step: Step): State {
    match step
    case ActivityCreated => if s.nativeStarted then s else s.(nativeStarted := true, log := s.log + [Started])
    case ActivityResumed =>
      var s' := s.(log := s.log + [Resumed]);
      if s.active then s' else s'.(active := true, last := 0, pending := s.pending + 1)
    case ActivityPaused => s.(active := false, pending := 0, log := s.log + [Paused])
    case ActivityDestroyed => s.(log := s.log + [Destroyed])
    case Vsync(time) => Frames(s.(pending := 0), s.pending, time)
  }

  function Run(s: State, steps: seq<Step>): State
    decreases |steps|
  {
    if steps == [] then s else Run(Next(s, steps[0]), steps[1..])
  }

  const INSTALLED := State(false, 0, 0, false, [])

  // ---------------------------------------------------------------- one callback while active, none otherwise

  predicate OnePending(s: State) {
    s.pending == if s.active then 1 else 0
  }

  lemma OneFrame(s: State, time: int)
    ensures Frames(s, 0, time) == s && Frames(s, 1, time) == Frame(s, time)
  {
    assert Frames(Frame(s, time), 0, time) == Frame(s, time);
  }

  lemma PendingKept(s: State, step: Step)
    requires OnePending(s)
    ensures OnePending(Next(s, step))
    ensures step.Vsync? ==> Next(s, step) == if s.active then Frame(s.(pending := 0), step.time) else s
  {
    if step.Vsync? {
      OneFrame(s.(pending := 0), step.time);
    }
  }

  lemma {:induction false} PendingHolds(s: State, steps: seq<Step>)
    requires OnePending(s)
    ensures OnePending(Run(s, steps))
    decreases |steps|
  {
    hide Next;
    if steps != [] {
      PendingKept(s, steps[0]);
      PendingHolds(Next(s, steps[0]), steps[1..]);
    }
  }

  /**
   * Over any sequence of activity callbacks and vsyncs exactly one callback is pending while active and none
   * otherwise, so a vsync runs exactly one native tick while active and none otherwise.
   */
  lemma OneTickPerVsync(steps: seq<Step>, time: int)
    ensures var s := Run(INSTALLED, steps);
            && s.pending == (if s.active then 1 else 0)
            && Next(s, Vsync(time)).log == if s.active then s.log + [Ticked(Delta(s.last, time))] else s.log
  {
    PendingHolds(INSTALLED, steps);
    PendingKept(Run(INSTALLED, steps), Vsync(time));
  }

  /** The removal in stop() is what keeps this: had it only cleared the flag, a quick stop and start would tick twice. */
  lemma WithoutRemovalTwoTicks(s: State, time: int)
    requires OnePending(s) && s.active
    ensures var restarted := Next(s.(active := false), ActivityResumed);
            restarted.pending == 2 && |Next(restarted, Vsync(time)).log| == |restarted.log| + 2
  {
    var restarted := Next(s.(active := false), ActivityResumed);
    var t := restarted.(pending := 0);
    OneFrame(Frame(t, time), time);
    assert Frames(t, 2, time) == Frames(Frame(t, time), 1, time);
  }

  // ---------------------------------------------------------------- the native side starts once, before it ticks

  predicate StartsFirst(s: State) {
    && (!s.nativeStarted ==> forall i :: 0 <= i < |s.log| ==> s.log[i] != Started)
    && (s.nativeStarted ==> exists i :: 0 <= i < |s.log| && s.log[i] == Started)
    && (forall i, j :: 0 <= i < j < |s.log| && s.log[i] == Started ==> s.log[j] != Started)
    && (forall j :: 0 <= j < |s.log| && s.log[j].Ticked? ==> exists i :: 0 <= i < j && s.log[i] == Started)
    && (s.active ==> s.nativeStarted)
  }

  /** Android creates an activity before resuming it. */
  predicate CreatedFirst(s: State, step: Step) {
    step == ActivityResumed ==> s.nativeStarted
  }

  predicate CreatedFirstRun(s: State, steps: seq<Step>)
    decreases |steps|
  {
    steps == [] || (CreatedFirst(s, steps[0]) && CreatedFirstRun(Next(s, steps[0]), steps[1..]))
  }

  lemma LogGrows(s: State, t: State, entry: Native)
    requires StartsFirst(s) && t.log == s.log + [entry]
    requires t.nativeStarted == (s.nativeStarted || entry == Started) && (entry == Started ==> !s.nativeStarted)
    requires (entry.Ticked? || t.active ==> s.nativeStarted)
    ensures StartsFirst(t)
  {
    forall j | 0 <= j < |t.log| && t.log[j].Ticked? ensures exists i :: 0 <= i < j && t.log[i] == Started {
      if j < |s.log| {
        var i :| 0 <= i < j && s.log[i] == Started;
        assert t.log[i] == Started;
      } else {
        var i :| 0 <= i < |s.log| && s.log[i] == Started;
        assert t.log[i] == Started;
      }
    }
    if s.nativeStarted {
      var i :| 0 <= i < |s.log| && s.log[i] == Started;
      assert t.log[i] == Started;
    } else if entry == Started {
      assert t.log[|s.log|] == Started;
    }
  }

  lemma StartsFirstKept(s: State, step: Step)
    requires StartsFirst(s) && OnePending(s) && CreatedFirst(s, step)
    ensures StartsFirst(Next(s, step))
  {
    hide StartsFirst, Frames;
    PendingKept(s, step);
    var t := Next(s, step);
    assert s.active ==> s.nativeStarted by { StartedIfActive(s); }
    match step {
      case ActivityCreated => if !s.nativeStarted { LogGrows(s, t, Started); }
      case ActivityResumed => LogGrows(s, t, Resumed);
      case ActivityPaused => LogGrows(s, t, Paused);
      case ActivityDestroyed => LogGrows(s, t, Destroyed);
      case Vsync(time) => if s.active { LogGrows(s, t, Ticked(Delta(s.last, time))); }
    }
  }

  lemma StartedIfActive(s: State)
    requires StartsFirst(s)
    ensures s.active ==> s.nativeStarted
  {
  }

  lemma {:induction false} StartsFirstHolds(s: State, steps: seq<Step>)
    requires StartsFirst(s) && OnePending(s) && CreatedFirstRun(s, steps)
    ensures StartsFirst(Run(s, steps))
    decreases |steps|
  {
    hide Next, StartsFirst, OnePending, CreatedFirst;
    if steps != [] {
      StartsFirstKept(s, steps[0]);
      PendingKept(s, steps[0]);
      StartsFirstHolds(Next(s, steps[0]), steps[1..]);
    }
  }

  /** However often activities are recreated, the native side is started at most once, and before its first tick. */
  lemma StartedOnceBeforeTicks(steps: seq<Step>)
    requires CreatedFirstRun(INSTALLED, steps)
    ensures var log := Run(INSTALLED, steps).log;
            && (forall i, j :: 0 <= i < j < |log| && log[i] == Started ==> log[j] != Started)
            && (forall j :: 0 <= j < |log| && log[j].Ticked? ==> exists i :: 0 <= i < j && log[i] == Started)
  {
    StartsFirstHolds(INSTALLED, steps);
  }

  /** What the native side hears besides its start and its ticks. */
  function Heard(log: seq<Native>): seq<Native> {
    if log == [] then []
    else (if log[0] == Started || log[0].Ticked? then [] else [log[0]]) + Heard(log[1..])
  }

  function Callback(step: Step): seq<Native> {
    match step
    case ActivityResumed => [Resumed]
    case ActivityPaused => [Paused]
    case ActivityDestroyed => [Destroyed]
    case _ => []
  }

  /** The lifecycle callbacks among these steps, in order. */
  function Lifecycle(steps: seq<Step>): seq<Native> {
    if steps == [] then [] else Callback(steps[0]) + Lifecycle(steps[1..])
  }

  lemma {:induction false} HeardJoin(a: seq<Native>, b: seq<Native>)
    ensures Heard(a + b) == Heard(a) + Heard(b)
  {
    if a == [] {
      assert a + b == b;
    } else {
      assert (a + b)[1..] == a[1..] + b;
      HeardJoin(a[1..], b);
    }
  }

  lemma HeardOne(entry: Native)
    ensures Heard([entry]) == if entry == Started || entry.Ticked? then [] else [entry]
  {
    assert [entry][1..] == [];
  }

  lemma StepHeard(s: State, step: Step)
    requires OnePending(s)
    ensures Heard(Next(s, step).log) == Heard(s.log) + Callback(step)
    ensures Started in Next(s, step).log <==> Started in s.log || (step == ActivityCreated && !s.nativeStarted)
    ensures Next(s, step).nativeStarted == (s.nativeStarted || step == ActivityCreated)
  {
    hide Heard, Frames;
    PendingKept(s, step);
    var t := Next(s, step);
    if t.log != s.log {
      var entry := t.log[|t.log| - 1];
      assert t.log == s.log + [entry];
      HeardJoin(s.log, [entry]);
      HeardOne(entry);
    }
  }

  lemma {:induction false} RunHeard(s: State, steps: seq<Step>)
    requires OnePending(s) && (Started in s.log <==> s.nativeStarted)
    ensures var t := Run(s, steps);
            && Heard(t.log) == Heard(s.log) + Lifecycle(steps)
            && (Started in t.log <==> t.nativeStarted) && (t.nativeStarted <==> s.nativeStarted || ActivityCreated in steps)
    decreases |steps|
  {
    hide Next, Heard, OnePending, Callback;
    if steps != [] {
      StepHeard(s, steps[0]);
      PendingKept(s, steps[0]);
      RunHeard(Next(s, steps[0]), steps[1..]);
      Assoc(Heard(s.log), Callback(steps[0]), Lifecycle(steps[1..]));
    } else {
      assert Heard(s.log) + [] == Heard(s.log);
    }
  }

  /**
   * The native side hears every resume, pause and destroy of any activity, in order and once each, and has been
   * started exactly when some activity has been created.
   */
  lemma CallbacksReachNative(steps: seq<Step>)
    ensures var log := Run(INSTALLED, steps).log;
            Heard(log) == Lifecycle(steps) && (Started in log <==> ActivityCreated in steps)
  {
    RunHeard(INSTALLED, steps);
    assert Heard([]) == [] && [] + Lifecycle(steps) == Lifecycle(steps);
  }

  // ---------------------------------------------------------------- what the deltas of one session add up to

  function Session(times: seq<int>): seq<Step> {
    seq(|times|, i requires 0 <= i < |times| => Vsync(times[i]))
  }

  function Ascending(times: seq<int>): bool {
    forall i, j :: 0 <= i < j < |times| ==> times[i] < times[j]
  }

  function Total(log: seq<Native>): real {
    if log == [] then 0.0
    else (if log[0].Ticked? then log[0].delta else 0.0) + Total(log[1..])
  }

  lemma {:induction false} TotalJoin(a: seq<Native>, b: seq<Native>)
    ensures Total(a + b) == Total(a) + Total(b)
  {
    if a == [] {
      assert a + b == b;
    } else {
      assert (a + b)[1..] == a[1..] + b;
      TotalJoin(a[1..], b);
    }
  }

  lemma TotalOne(entry: Native)
    ensures Total([entry]) == if entry.Ticked? then entry.delta else 0.0
  {
    assert [entry][1..] == [];
  }

  /** Frames at these times, from an active ticker whose last frame time is `last`. */
  function Reported(last: int, times: seq<int>): real
    decreases |times|
  {
    if times == [] then 0.0 else Delta(last, times[0]) + Reported(times[0], times[1..])
  }

  lemma {:induction false} SessionReports(s: State, times: seq<int>)
    requires s.active && OnePending(s)
    ensures var t := Run(s, Session(times));
            t.active && OnePending(t) && Total(t.log) == Total(s.log) + Reported(s.last, times)
    decreases |times|
  {
    hide Next, Total;
    if times != [] {
      assert Session(times)[1..] == Session(times[1..]);
      var s' := Next(s, Vsync(times[0]));
      PendingKept(s, Vsync(times[0]));
      TotalJoin(s.log, [Ticked(Delta(s.last, times[0]))]);
      TotalOne(Ticked(Delta(s.last, times[0])));
      SessionReports(s', times[1..]);
    }
  }

  function Span(times: seq<int>): real {
    if times == [] then 0.0 else (times[|times| - 1] - times[0]) as real / 1000000000.0
  }

  /** The time between frames that goes unreported because the earlier frame's time is exactly 0. */
  function Unreported(times: seq<int>): real {
    if |times| < 2 then 0.0
    else (if times[0] == 0 then (times[1] - times[0]) as real / 1000000000.0 else 0.0) + Unreported(times[1..])
  }

  lemma {:induction false} ReportedPlusUnreported(last: int, times: seq<int>)
    requires times != []
    ensures Reported(last, times) == Delta(last, times[0]) + Span(times) - Unreported(times)
    decreases |times|
  {
    if |times| > 1 {
      ReportedPlusUnreported(times[0], times[1..]);
      assert times[1..][|times[1..]| - 1] == times[|times| - 1];
    } else {
      assert times[1..] == [];
    }
  }

  lemma {:induction false} UnreportedIffZero(times: seq<int>)
    requires Ascending(times)
    ensures Unreported(times) >= 0.0
    ensures Unreported(times) == 0.0 <==> forall i :: 0 <= i < |times| - 1 ==> times[i] != 0
  {
    if |times| >= 2 {
      assert forall i, j :: 0 <= i < j < |times[1..]| ==> times[1..][i] == times[i + 1] && times[1..][j] == times[j + 1];
      UnreportedIffZero(times[1..]);
      assert (times[1] - times[0]) as real > 0.0;
      assert forall i :: 0 < i < |times| - 1 ==> times[i] == times[1..][i - 1];
      if forall i :: 0 <= i < |times[1..]| - 1 ==> times[1..][i] != 0 {
        if times[0] != 0 {
          assert forall i :: 0 <= i < |times| - 1 ==> times[i] != 0;
        }
      } else {
        var i :| 0 <= i < |times[1..]| - 1 && times[1..][i] == 0;
        assert times[i + 1] == 0;
      }
    }
  }

  /**
   * Within one active session the reported deltas add up to the last frame time minus the first, exactly when
   * no frame but the last comes at time 0, the value that also stands for no previous frame.
   */
  lemma SessionDeltasAddUp(s: State, times: seq<int>)
    requires OnePending(s) && !s.active && times != [] && Ascending(times)
    ensures var t := Run(Next(s, ActivityResumed), Session(times));
            Total(t.log) - Total(s.log) == Span(times) <==> forall i :: 0 <= i < |times| - 1 ==> times[i] != 0
  {
    hide Total, Unreported, Span, Session;
    var u := Next(s, ActivityResumed);
    TotalJoin(s.log, [Resumed]);
    TotalOne(Resumed);
    SessionReports(u, times);
    ReportedPlusUnreported(0, times);
    UnreportedIffZero(times);
  }
}
