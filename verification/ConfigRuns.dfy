/**
 * Configuration loading and hot reload over whole runs: the app's stat, open and read are separate steps, and
 * an editor may change or remove the file between any two of them. Steps not possible in a state do nothing.
 */
module ConfigRuns {
  import opened Common
  import opened MetaJson
  import opened JsonRoundTrip
  import opened AppState
  import opened ConfigFile

  datatype Entry = Entry(text: string, mtime: nat)

  /** Where the app is; `boot` tells the load of on_started() from a later poll, `clean` an undisturbed read. */
  datatype Stage = Boot | Loading | Opening(boot: bool) | Reading(boot: bool, clean: bool) | Ready | Ended

  /** What the last attempt to parse the file saw; `failed` tells a failed open or read from a missing file. */
  datatype Attempt = NoAttempt | Unread(failed: bool) | Saw(text: string)

  /**
   * History the app does not keep: the file times used so far, the last attempt, whether the file changed
   * between its recorded stat and the end of its read, the contents that parsed, and how many polls acted.
   */
  datatype State = State(
    file: Option<Entry>, used: set<nat>, seen: nat, live: Config, stage: Stage,
    attempt: Attempt, dirty: bool, parsed: seq<string>, acted: nat)

  datatype Step =
    | Edit(text: string, mtime: nat)
    | Remove
    | CheckExists(fails: bool)
    | Provision(written: bool, left: Option<string>, mtime: nat)
    | StatForLoad(answers: bool)
    | Poll(answers: bool)
    | Open(opens: bool)
    | Finish(bad: bool, observed: string)

  function Disturbed(s: State): State {
    match s.stage
    case Opening(_) => s.(dirty := true)
    case Reading(boot, _) => s.(dirty := true, stage := Reading(boot, false))
    case _ => s
  }

  /** The end of a parse attempt: load or poll, then the caller's clamp. */
  function Attempted(s: State, boot: bool, read: Option<string>, failed: bool): State {
    var s := s.(attempt := if read.Some? then Saw(read.value) else Unread(failed));
    if read.Some? && Raises(s.live, read.value) then s.(stage := Ended)
    else if read.Some? && Apply(s.live, read.value).Some? then
      s.(stage := Ready, live := Clamp(Apply(s.live, read.value).value), parsed := s.parsed + [read.value])
    else s.(stage := Ready, live := if boot then Clamp(s.live) else s.live)
  }

  /** An attempt leaves what LoadConfig and PollConfig leave: the same values, or the same exception. */
  lemma AttemptedIsReload(s: State, boot: bool, read: Option<string>, failed: bool)
    ensures var t := Attempted(s, boot, read, failed);
            var from := if boot then Clamp(s.live) else s.live;
            && (t.stage == Ended <==> read.Some? && Raises(s.live, read.value))
            && (t.stage != Ended ==> t.live == if read.Some? then Reload(from, read.value) else from)
            && t.seen == s.seen && t.file == s.file
  {
    hide Apply, Raises;
    if read.Some? && boot {
      ClampingFirstChangesNothing(s.live, read.value);
    }
  }

  function Next(s: State, step: Step): State {
    match step
    case Edit(text, mtime) => Disturbed(s).(file := Some(Entry(text, mtime)), used := s.used + {mtime})
    case Remove => Disturbed(s).(file := None)
    case CheckExists(fails) =>
      if s.stage != Boot then s
      else if fails then s.(stage := Ready, live := Clamp(s.live))
      else if s.file.Some? then s.(stage := Loading)
      else s
    case Provision(written, left, mtime) =>
      if s.stage != Boot || s.file.Some? then s
      else
        var text := if written then Some(Printed(Some(APP_CONFIG), ValuesOf(s.live))) else left;
        s.(file := if text.Some? then Some(Entry(text.value, mtime)) else None,
           used := if text.Some? then s.used + {mtime} else s.used,
           seen := if written then mtime else s.seen,
           attempt := if written then Saw(text.value) else s.attempt,
           stage := Ready, live := Clamp(s.live))
    case StatForLoad(answers) =>
      if s.stage != Loading then s
      else s.(seen := if answers && s.file.Some? then s.file.value.mtime else s.seen, dirty := false, stage := Opening(true))
    case Poll(answers) =>
      if s.stage != Ready || !answers || s.file.None? || s.file.value.mtime == s.seen then s
      else s.(seen := s.file.value.mtime, dirty := false, stage := Opening(false), acted := s.acted + 1)
    case Open(opens) =>
      if !s.stage.Opening? then s
      else if opens && s.file.Some? then s.(stage := Reading(s.stage.boot, true))
      else Attempted(s, s.stage.boot, None, !opens)
    case Finish(bad, observed) =>
      if !s.stage.Reading? then s
      else
        var text := if s.stage.clean && s.file.Some? then s.file.value.text else observed;
        Attempted(s, s.stage.boot, if bad then None else Some(text), bad)
  }

  function Run(s: State, steps: seq<Step>): State
    decreases |steps|
  {
    if steps == [] then s else Run(Next(s, steps[0]), steps[1..])
  }

  /** A process about to load: nothing seen, the struct defaults, and perhaps a file from before. */
  predicate Starting(s: State) {
    && s.stage == Boot && s.seen == EPOCH && s.attempt == NoAttempt && !s.dirty && s.parsed == [] && s.acted == 0
    && s.used == {EPOCH} + (if s.file.Some? then {s.file.value.mtime} else {})
  }

  /** Past loading, or ended by an exception. */
  predicate Loaded(s: State) {
    s.stage in {Ready, Ended} || (s.stage.Opening? && !s.stage.boot) || (s.stage.Reading? && !s.stage.boot)
  }

  // ---------------------------------------------------------------- the live value is a fold

  /** The defaults, then every content that parsed, each applied to the values before it and clamped. */
  function Fold(defaults: Config, texts: seq<string>): Config
    decreases |texts|
  {
    if texts == [] then Clamp(defaults)
    else Reload(Fold(defaults, texts[..|texts| - 1]), texts[|texts| - 1])
  }

  predicate FoldHolds(s: State, defaults: Config) {
    if !Loaded(s) then s.parsed == [] && s.live == defaults
    else s.stage == Ended || s.live == Fold(defaults, s.parsed)
  }

  lemma AttemptKeepsFold(s: State, defaults: Config, boot: bool, read: Option<string>, failed: bool)
    requires FoldHolds(s, defaults) && Loaded(s) == !boot && s.stage != Ended
    ensures FoldHolds(Attempted(s, boot, read, failed), defaults)
  {
    hide Apply, Raises, Clamp;
    AttemptedIsReload(s, boot, read, failed);
    if read.Some? {
      assert (s.parsed + [read.value])[..|s.parsed|] == s.parsed;
    }
    assert Fold(defaults, []) == Clamp(defaults);
  }

  lemma FoldKept(s: State, defaults: Config, step: Step)
    requires FoldHolds(s, defaults)
    ensures FoldHolds(Next(s, step), defaults)
  {
    hide Apply, Raises, Printed, Clamp, Reload;
    match step {
      case Finish(bad, observed) =>
        if s.stage.Reading? {
          var text := if s.stage.clean && s.file.Some? then s.file.value.text else observed;
          AttemptKeepsFold(s, defaults, s.stage.boot, if bad then None else Some(text), bad);
        }
      case Open(_) =>
        if s.stage.Opening? {
          AttemptKeepsFold(s, defaults, s.stage.boot, None, !step.opens);
        }
      case _ =>
    }
  }

  /**
   * Over any run of loads and polls against any editor, the live configuration is the fold of
   * clamp-after-partial-update over the contents that parsed; nothing else ever changes it.
   */
  lemma {:induction false} LiveIsFold(s: State, defaults: Config, steps: seq<Step>)
    requires FoldHolds(s, defaults)
    ensures FoldHolds(Run(s, steps), defaults)
    decreases |steps|
  {
    hide FoldHolds, Next;
    if steps != [] {
      FoldKept(s, defaults, steps[0]);
      LiveIsFold(Next(s, steps[0]), defaults, steps[1..]);
    }
  }

  lemma {:induction false} FoldAboveFloors(defaults: Config, texts: seq<string>)
    ensures var c := Fold(defaults, texts); c.log >= MIN_TICK_LOG_INTERVAL && c.snap >= MIN_SNAPSHOT_INTERVAL_TICKS
    decreases |texts|
  {
    hide Apply;
    if texts != [] {
      FoldAboveFloors(defaults, texts[..|texts| - 1]);
    }
  }

  /** Once loaded, both intervals are at or above their floors at every moment of every run. */
  lemma FloorsAlwaysHold(s: State, defaults: Config, steps: seq<Step>)
    requires Starting(s) && s.live == defaults
    ensures var t := Run(s, steps);
            if !Loaded(t) then t.live == defaults && t.parsed == []
            else t.stage != Ended ==> t.live == Fold(defaults, t.parsed) && t.live.log >= 10 && t.live.snap >= 60
  {
    hide Run, Fold;
    LiveIsFold(s, defaults, steps);
    FoldAboveFloors(defaults, Run(s, steps).parsed);
  }

  lemma TwoFields(c: Config, m: map<string, JsonText.Json>)
    ensures var r1 := FieldResult(APP_CONFIG[0], IntValue(c.log), m);
            var r2 := FieldResult(APP_CONFIG[1], IntValue(c.snap), m);
            SetFields(APP_CONFIG, ValuesOf(c), m) ==
            if r1.0 != Accepted then (r1.0, ValuesOf(c))
            else if r2.0 != Accepted then (r2.0, [r1.1, IntValue(c.snap)])
            else (Accepted, [r1.1, r2.1])
  {
    hide Converted;
    var fields, values := APP_CONFIG[1..], ValuesOf(c)[1..];
    assert fields == [APP_CONFIG[1]] && values == [IntValue(c.snap)];
    assert fields[1..] == [] && values[1..] == [];
    var r1 := FieldResult(APP_CONFIG[0], IntValue(c.log), m);
    var r2 := FieldResult(APP_CONFIG[1], IntValue(c.snap), m);
    var none: seq<Value> := [];
    assert SetFields([], none, m) == (Accepted, none);
    assert [r2.1] + none == [r2.1] && values == [values[0]] + none;
    assert [r1.1] + [r2.1] == [r1.1, r2.1] && [r1.1] + values == [r1.1, IntValue(c.snap)];
    assert SetFields(fields, values, m) == if r2.0 != Accepted then (r2.0, values) else (Accepted, [r2.1]);
  }

  /** A rejected text leaves the live values alone although the field loop had already set the first field. */
  lemma RejectedHalfway(c: Config, text: string, first: int)
    requires ObjectIn(text).Some? && IsInt32(first)
    requires var m := ObjectIn(text).value;
             && "tick_log_interval" in m && m["tick_log_interval"] == JsonText.Number(first as real)
             && "snapshot_interval_ticks" in m && Converted(IntKind, m["snapshot_interval_ticks"]).0 == Rejected
    ensures FromJson(Some(APP_CONFIG), ValuesOf(c), text) == (Rejected, [IntValue(first), IntValue(c.snap)])
    ensures ParsedInto(Some(APP_CONFIG), ValuesOf(c), Some(text)) == (Rejected, ValuesOf(c))
    ensures Reload(c, text) == c
  {
    hide ObjectIn, Converted, SetFields;
    var m := ObjectIn(text).value;
    ConvertsBack(IntKind, IntValue(first));
    TwoFields(c, m);
  }

  lemma AppConfigIsRecord(c: Config)
    requires IsInt32(c.log) && IsInt32(c.snap)
    ensures IsRecord(APP_CONFIG) && MetaJson.Fits(APP_CONFIG, ValuesOf(c))
  {
    FirstName();
    SecondName();
    hide IsPlain;
  }

  lemma FirstName()
    ensures IsPlain("tick_log_interval") && |"tick_log_interval"| == 17
  {
  }

  lemma SecondName()
    ensures IsPlain("snapshot_interval_ticks") && |"snapshot_interval_ticks"| == 23
  {
  }

  /** A printed configuration, followed by anything, is applied whole, whatever the live values were. */
  lemma PrintedApplies(c: Config, live: Config, tail: string)
    requires IsInt32(c.log) && IsInt32(c.snap)
    ensures Apply(live, Printed(Some(APP_CONFIG), ValuesOf(c)) + tail) == Some(c)
    ensures !Raises(live, Printed(Some(APP_CONFIG), ValuesOf(c)) + tail)
  {
    AppConfigIsRecord(c);
    hide Printed, FromJson, IsRecord, MetaJson.Fits;
    RoundTrip(APP_CONFIG, ValuesOf(c), ValuesOf(live), tail);
  }

  // ---------------------------------------------------------------- the live value is what the file says

  /** The text is an object that gives both fields these whole numbers, whatever else it holds. */
  predicate HasInts(text: string, log: int, snap: int) {
    && ObjectIn(text).Some? && IsInt32(log) && IsInt32(snap)
    && var m := ObjectIn(text).value;
       && "tick_log_interval" in m && m["tick_log_interval"] == JsonText.Number(log as real)
       && "snapshot_interval_ticks" in m && m["snapshot_interval_ticks"] == JsonText.Number(snap as real)
  }

  lemma IntsApply(c: Config, text: string, log: int, snap: int)
    requires HasInts(text, log, snap)
    ensures Apply(c, text) == Some(Config(log, snap)) && !Raises(c, text)
  {
    hide ObjectIn, Converted, SetFields;
    var m := ObjectIn(text).value;
    IntFieldTakes(JsonText.Number(log as real));
    IntFieldTakes(JsonText.Number(snap as real));
    TwoFields(c, m);
  }

  lemma PrintedInts(c: Config, log: int, snap: int)
    requires IsInt32(c.log) && IsInt32(c.snap) && HasInts(Printed(Some(APP_CONFIG), ValuesOf(c)), log, snap)
    ensures c == Config(log, snap)
  {
    hide Printed, HasInts, Apply;
    var text := Printed(Some(APP_CONFIG), ValuesOf(c));
    IntsApply(c, text, log, snap);
    PrintedApplies(c, c, "");
    assert text + "" == text;
  }

  /** These values, each raised to its floor if it is below. */
  predicate IsRaised(live: Config, log: int, snap: int) {
    live.log == (if log >= 10 then log else 10) && live.snap == if snap >= 60 then snap else 60
  }

  predicate IsBooting(s: State) {
    s.stage in {Boot, Loading} || ((s.stage.Opening? || s.stage.Reading?) && s.stage.boot)
  }

  /** If the last attempt saw whole numbers for both fields, they are the live values. */
  ghost predicate ShowsText(s: State) {
    && (IsBooting(s) ==> s.attempt == NoAttempt && IsInt32(s.live.log) && IsInt32(s.live.snap))
    && (s.attempt.Saw? && s.stage != Ended ==>
          forall log, snap :: HasInts(s.attempt.text, log, snap) ==> IsRaised(s.live, log, snap))
  }

  lemma AttemptShows(s: State, boot: bool, read: Option<string>, failed: bool)
    ensures ShowsText(Attempted(s, boot, read, failed))
  {
    hide HasInts, Apply, Raises;
    var t := Attempted(s, boot, read, failed);
    if read.Some? && t.stage != Ended {
      forall log, snap | HasInts(read.value, log, snap) ensures IsRaised(t.live, log, snap) {
        IntsApply(s.live, read.value, log, snap);
      }
    }
  }

  lemma ProvisionShows(s: State, step: Step)
    requires ShowsText(s) && step.Provision?
    ensures ShowsText(Next(s, step))
  {
    hide HasInts, Printed;
    var t := Next(s, step);
    if s.stage == Boot && s.file.None? && step.written {
      forall log, snap | HasInts(t.attempt.text, log, snap) ensures IsRaised(t.live, log, snap) {
        PrintedInts(s.live, log, snap);
      }
    }
  }

  lemma NextShows(s: State, step: Step)
    requires ShowsText(s)
    ensures ShowsText(Next(s, step))
  {
    hide HasInts, Printed, Attempted, IsRaised;
    match step {
      case Provision(_, _, _) => ProvisionShows(s, step);
      case Open(opens) =>
        if s.stage.Opening? {
          AttemptShows(s, s.stage.boot, None, !opens);
        }
      case Finish(bad, observed) =>
        if s.stage.Reading? {
          var text := if s.stage.clean && s.file.Some? then s.file.value.text else observed;
          AttemptShows(s, s.stage.boot, if bad then None else Some(text), bad);
        }
      case _ =>
    }
  }

  lemma {:induction false} RunShows(s: State, steps: seq<Step>)
    requires ShowsText(s)
    ensures ShowsText(Run(s, steps))
    decreases |steps|
  {
    hide ShowsText, Next;
    if steps != [] {
      NextShows(s, steps[0]);
      RunShows(Next(s, steps[0]), steps[1..]);
    }
  }

  /**
   * At every moment of every run, if the text last read gives both intervals as whole numbers, each live value
   * is exactly the one in the text, or the floor if that is higher.
   */
  lemma LastTextIsLive(s: State, steps: seq<Step>, text: string, log: int, snap: int)
    requires Starting(s) && IsInt32(s.live.log) && IsInt32(s.live.snap)
    requires var t := Run(s, steps); t.stage != Ended && t.attempt == Saw(text) && HasInts(text, log, snap)
    ensures Run(s, steps).live.log == if log >= 10 then log else 10
    ensures Run(s, steps).live.snap == if snap >= 60 then snap else 60
  {
    hide Run, HasInts;
    RunShows(s, steps);
  }

  /**
   * What one text does to the live values: it is accepted exactly when every field it mentions can be set, and
   * then a field it leaves out keeps its value; both end at or above their floors.
   */
  lemma ReloadFields(c: Config, text: string)
    requires ObjectIn(text).Some?
    ensures var m := ObjectIn(text).value;
            Apply(c, text).Some? <==>
              ("tick_log_interval" in m ==> Converted(IntKind, m["tick_log_interval"]).0 == Accepted) &&
              ("snapshot_interval_ticks" in m ==> Converted(IntKind, m["snapshot_interval_ticks"]).0 == Accepted)
    ensures var m := ObjectIn(text).value;
            Apply(c, text).Some? ==>
              var log := if "tick_log_interval" in m then Converted(IntKind, m["tick_log_interval"]).1 else IntValue(c.log);
              var snap := if "snapshot_interval_ticks" in m then Converted(IntKind, m["snapshot_interval_ticks"]).1
                          else IntValue(c.snap);
              log.IntValue? && snap.IntValue? && IsRaised(Reload(c, text), log.n, snap.n)
    ensures Apply(c, text).None? ==> Reload(c, text) == c
  {
    hide ObjectIn, Converted, SetFields;
    var m := ObjectIn(text).value;
    TwoFields(c, m);
    if "tick_log_interval" in m {
      IntFieldTakes(m["tick_log_interval"]);
    }
    if "snapshot_interval_ticks" in m {
      IntFieldTakes(m["snapshot_interval_ticks"]);
    }
  }

  /** A provisioned file is its own recorded state: polls find nothing to do, and a later load reads it back. */
  lemma ProvisionedIsSettled(s: State, left: Option<string>, mtime: nat, later: Config, polls: nat)
    requires s.stage == Boot && s.file.None? && IsInt32(s.live.log) && IsInt32(s.live.snap)
    ensures var t := Next(s, Provision(true, left, mtime));
            && t.stage == Ready && t.file.Some? && t.seen == mtime == t.file.value.mtime
            && IsRaised(t.live, s.live.log, s.live.snap) && Run(t, Polls(polls)) == t
            && Apply(later, t.file.value.text) == Some(s.live) && Reload(later, t.file.value.text) == t.live
  {
    hide Run, Polls, Apply, Printed;
    var t := Next(s, Provision(true, left, mtime));
    PollsDoNothing(t, polls);
    PrintedApplies(s.live, later, "");
    assert Printed(Some(APP_CONFIG), ValuesOf(s.live)) + "" == Printed(Some(APP_CONFIG), ValuesOf(s.live));
  }

  // ---------------------------------------------------------------- never stale unless a file time recurs

  /** Every change that leaves a file gives it a time no earlier one used. */
  predicate IsFresh(s: State, step: Step) {
    match step
    case Edit(_, mtime) => mtime !in s.used
    case Provision(_, _, mtime) => s.stage == Boot && s.file.None? ==> mtime !in s.used
    case _ => true
  }

  predicate FreshRun(s: State, steps: seq<Step>)
    decreases |steps|
  {
    steps == [] || (IsFresh(s, steps[0]) && FreshRun(Next(s, steps[0]), steps[1..]))
  }

  /** The last attempt read exactly the file's content, or its open or read failed and it said so. */
  predicate IsExact(attempt: Attempt, text: string) {
    attempt == Saw(text) || attempt == Unread(true)
  }

  /** Polls will answer unchanged, although the last attempt was not on the file's content. */
  predicate IsStale(s: State) {
    s.stage == Ready && s.file.Some? && s.seen == s.file.value.mtime && !IsExact(s.attempt, s.file.value.text)
  }

  predicate Inv(s: State) {
    && EPOCH in s.used && s.seen in s.used
    && (s.file.Some? ==> s.file.value.mtime in s.used && s.file.value.mtime != EPOCH)
    && (s.stage in {Boot, Loading} ==> s.seen == EPOCH && !s.dirty)
    && (s.dirty && s.file.Some? ==> s.seen != s.file.value.mtime)
    && (s.stage.Reading? && !s.stage.clean ==> s.dirty)
    && !IsStale(s)
  }

  lemma InvKept(s: State, step: Step)
    requires Inv(s) && IsFresh(s, step)
    ensures Inv(Next(s, step))
  {
    hide Apply, Raises, Printed, Clamp;
  }

  lemma {:induction false} InvHolds(s: State, steps: seq<Step>)
    requires Inv(s) && FreshRun(s, steps)
    ensures Inv(Run(s, steps))
    decreases |steps|
  {
    hide Inv, Next, IsFresh;
    if steps != [] {
      InvKept(s, steps[0]);
      InvHolds(Next(s, steps[0]), steps[1..]);
    }
  }

  /**
   * Whenever the recorded time equals the file's, the last attempt saw exactly the file's content, unless the
   * stream itself could not be opened or read, in any run in which no file time recurs.
   */
  lemma NeverStale(s: State, steps: seq<Step>)
    requires Starting(s) && FreshRun(s, steps) && (s.file.Some? ==> s.file.value.mtime != EPOCH)
    ensures !IsStale(Run(s, steps))
  {
    hide Run, FreshRun;
    InvHolds(s, steps);
  }

  predicate IsChange(step: Step) {
    step.Edit? || step.Remove?
  }

  function Changes(steps: seq<Step>): seq<Step> {
    if steps == [] then []
    else (if IsChange(steps[0]) then [steps[0]] else []) + Changes(steps[1..])
  }

  /** The time a file value starts with, had before the run, or is given by one of these changes. */
  predicate HasTime(s: State, changes: seq<Step>, m: nat) {
    m == EPOCH || (s.file.Some? && m == s.file.value.mtime) ||
    exists i :: 0 <= i < |changes| && changes[i].Edit? && changes[i].mtime == m
  }

  /** No change gives the file a time that it, or an unset file time, has had before. */
  predicate NoTimeRecurs(s: State, changes: seq<Step>) {
    && (s.file.Some? ==> s.file.value.mtime != EPOCH)
    && forall j :: 0 <= j < |changes| && changes[j].Edit? ==> !HasTime(s, changes[..j], changes[j].mtime)
  }

  /**
   * One way the app's steps can fall between the first of these changes; a file the app itself provisions gets
   * a time of its own.
   */
  predicate IsSchedule(s: State, changes: seq<Step>, steps: seq<Step>) {
    && Changes(steps) <= changes
    && forall i :: 0 <= i < |steps| && steps[i].Provision? ==> !HasTime(s, changes, steps[i].mtime)
  }

  lemma MoreTimes(s: State, changes: seq<Step>, k: nat, m: nat)
    requires k < |changes|
    ensures HasTime(s, changes[..k], m) ==> HasTime(s, changes[..k + 1], m) && HasTime(s, changes, m)
    ensures changes[k].Edit? && changes[k].mtime == m ==> HasTime(s, changes[..k + 1], m) && HasTime(s, changes, m)
  {
    if i :| 0 <= i < k && changes[i].Edit? && changes[i].mtime == m {
      assert changes[..k][i] == changes[..k + 1][i] == changes[i];
    }
    if changes[k].Edit? && changes[k].mtime == m {
      assert changes[..k + 1][k] == changes[k];
    }
  }

  /** The times used so far come from the changes made so far, or are the app's own. */
  predicate TimesOk(s0: State, changes: seq<Step>, k: nat, s: State)
    requires k <= |changes|
  {
    forall m :: m in s.used ==> HasTime(s0, changes[..k], m) || (s.stage != Boot && !HasTime(s0, changes, m))
  }

  lemma ChangeKeepsTimes(s0: State, changes: seq<Step>, k: nat, s: State)
    requires k < |changes| && IsChange(changes[k]) && TimesOk(s0, changes, k, s)
    requires NoTimeRecurs(s0, changes)
    ensures IsFresh(s, changes[k]) && TimesOk(s0, changes, k + 1, Next(s, changes[k]))
  {
    hide HasTime, Printed;
    var t := Next(s, changes[k]);
    if changes[k].Edit? {
      MoreTimes(s0, changes, k, changes[k].mtime);
    }
    forall m | m in t.used ensures HasTime(s0, changes[..k + 1], m) || (t.stage != Boot && !HasTime(s0, changes, m)) {
      MoreTimes(s0, changes, k, m);
    }
  }

  lemma OwnStepKeepsTimes(s0: State, changes: seq<Step>, k: nat, s: State, step: Step)
    requires k <= |changes| && !IsChange(step) && TimesOk(s0, changes, k, s)
    requires step.Provision? ==> !HasTime(s0, changes, step.mtime)
    ensures IsFresh(s, step) && TimesOk(s0, changes, k, Next(s, step))
  {
    hide Apply, Raises, Printed, Clamp, HasTime;
    if step.Provision? {
      FewerTimes(s0, changes, k, step.mtime);
    }
  }

  lemma FewerTimes(s: State, changes: seq<Step>, k: nat, m: nat)
    requires k <= |changes|
    ensures HasTime(s, changes[..k], m) ==> HasTime(s, changes, m)
  {
    if i :| 0 <= i < k && changes[i].Edit? && changes[i].mtime == m {
      assert changes[..k][i] == changes[i];
    }
  }

  lemma {:induction false} ScheduleIsFresh(s0: State, changes: seq<Step>, k: nat, s: State, steps: seq<Step>)
    requires k <= |changes| && Changes(steps) <= changes[k..] && TimesOk(s0, changes, k, s)
    requires NoTimeRecurs(s0, changes)
    requires forall i :: 0 <= i < |steps| && steps[i].Provision? ==> !HasTime(s0, changes, steps[i].mtime)
    ensures FreshRun(s, steps)
    decreases |steps|
  {
    hide Next, IsFresh, HasTime, TimesOk, NoTimeRecurs;
    if steps != [] {
      if IsChange(steps[0]) {
        assert Changes(steps)[0] == steps[0] && Changes(steps)[1..] == Changes(steps[1..]);
        assert changes[k] == changes[k..][0] == steps[0];
        assert changes[k..][1..] == changes[k + 1..];
        ChangeKeepsTimes(s0, changes, k, s);
        ScheduleIsFresh(s0, changes, k + 1, Next(s, steps[0]), steps[1..]);
      } else {
        assert Changes(steps) == Changes(steps[1..]);
        OwnStepKeepsTimes(s0, changes, k, s, steps[0]);
        ScheduleIsFresh(s0, changes, k, Next(s, steps[0]), steps[1..]);
      }
    }
  }

  lemma {:induction false} ChangesRun(s: State, list: seq<Step>)
    requires forall i :: 0 <= i < |list| ==> IsChange(list[i])
    ensures var t := Run(s, list);
            && t.seen == s.seen && t.attempt == s.attempt && t.live == s.live
            && t.stage == (if list == [] then s.stage else Disturbed(s).stage)
            && (list == [] ==> t == s)
            && (list != [] && list[|list| - 1].Edit? ==>
                  t.file == Some(Entry(list[|list| - 1].text, list[|list| - 1].mtime)))
    decreases |list|
  {
    if list != [] {
      var rest := list[1..];
      ChangesRun(Next(s, list[0]), rest);
      assert rest != [] ==> rest[|rest| - 1] == list[|list| - 1];
    }
  }

  lemma {:induction false} RunsJoin(s: State, a: seq<Step>, b: seq<Step>)
    ensures Run(s, a + b) == Run(Run(s, a), b) && Changes(a + b) == Changes(a) + Changes(b)
    decreases |a|
  {
    hide Next, IsChange;
    if a == [] {
      assert a + b == b;
    } else {
      assert (a + b)[1..] == a[1..] + b && (a + b)[0] == a[0];
      RunsJoin(Next(s, a[0]), a[1..], b);
      Assoc(if IsChange(a[0]) then [a[0]] else [], Changes(a[1..]), Changes(b));
    }
  }

  lemma {:induction false} ChangesOfChanges(list: seq<Step>)
    requires forall i :: 0 <= i < |list| ==> IsChange(list[i])
    ensures Changes(list) == list
  {
    if list != [] {
      ChangesOfChanges(list[1..]);
    }
  }

  const LOAD: seq<Step> := [CheckExists(false), StatForLoad(true), Open(true)]

  /** The file is there: the load has recorded its time and is reading. */
  lemma LoadReads(s: State)
    requires s.stage == Boot && s.file.Some?
    ensures Run(s, LOAD) == s.(stage := Reading(true, true), seen := s.file.value.mtime, dirty := false)
    ensures Changes(LOAD) == []
  {
    assert LOAD[1..] == [StatForLoad(true), Open(true)] && LOAD[1..][1..] == [Open(true)] && LOAD[1..][1..][1..] == [];
    var s1 := Next(s, CheckExists(false));
    var s2 := Next(s1, StatForLoad(true));
    assert Run(s2, [Open(true)]) == Run(Next(s2, Open(true)), []);
    assert Run(s1, LOAD[1..]) == Run(s2, LOAD[1..][1..]);
    assert Changes([Open(true)]) == [] && Changes(LOAD[1..]) == [];
  }

  /** A text other than this one, which no type accepts and which raises nothing. */
  function Junk(text: string): (junk: string)
    ensures junk != text
  {
    if text == "" then "?" else ""
  }

  lemma JunkIsRejected(c: Config, text: string)
    ensures !Raises(c, Junk(text)) && Apply(c, Junk(text)).None?
  {
    assert JsonText.ReadValue("") == None;
    assert JsonText.SkipSpace("?") == "?" && JsonText.ReadNumber("?") == None;
    assert JsonText.ReadValue("?") == None;
  }

  lemma JunkIsRead(s: State, junk: string)
    requires s.stage == Reading(true, false) && !Raises(s.live, junk) && Apply(s.live, junk).None?
    ensures var t := Run(s, [Finish(false, junk)]);
            t.stage == Ready && t.attempt == Saw(junk) && t.file == s.file && t.seen == s.seen
    ensures Changes([Finish(false, junk)]) == []
  {
    hide Apply, Raises, Clamp;
    var finish := Finish(false, junk);
    assert [finish][1..] == [] && Changes([]) == [];
    assert Run(s, [finish]) == Run(Next(s, finish), []);
  }

  /** Changes that end by giving the file the time just recorded, made while it is read, go unnoticed. */
  lemma ReadUnderChanges(s: State, list: seq<Step>)
    requires s.stage == Reading(true, true) && list != [] && forall i :: 0 <= i < |list| ==> IsChange(list[i])
    requires list[|list| - 1].Edit? && list[|list| - 1].mtime == s.seen
    ensures var steps := list + [Finish(false, Junk(list[|list| - 1].text))];
            IsStale(Run(s, steps)) && Changes(steps) == list
  {
    hide Apply, Raises, Clamp, Junk, Next, Run, Changes;
    var junk := Junk(list[|list| - 1].text);
    RunsJoin(s, list, [Finish(false, junk)]);
    ChangesRun(s, list);
    ChangesOfChanges(list);
    JunkIsRejected(Run(s, list).live, list[|list| - 1].text);
    JunkIsRead(Run(s, list), junk);
    assert list + [] == list;
  }

  /** The existence check fails, so nothing is recorded; then a file with an unset file time appears. */
  lemma UnsetTimeIsStale(s: State, list: seq<Step>) returns (steps: seq<Step>)
    requires Starting(s) && forall i :: 0 <= i < |list| ==> IsChange(list[i])
    requires if list == [] then s.file.Some? && s.file.value.mtime == EPOCH
             else list[|list| - 1].Edit? && list[|list| - 1].mtime == EPOCH
    ensures IsStale(Run(s, steps)) && Changes(steps) == list && forall i :: 0 <= i < |steps| ==> !steps[i].Provision?
  {
    assert s.stage == Boot && s.seen == EPOCH && s.attempt == NoAttempt;
    hide Starting, Clamp, Next, Run, Changes, IsChange, IsStale;
    CheckFails(s);
    NothingRecorded(Next(s, CheckExists(true)), list);
    ChangesOfChanges(list);
    assert !IsChange(CheckExists(true)) by { OwnSteps(); }
    OneThenRest(s, CheckExists(true), list);
    OwnAndChanges(list);
    steps := [CheckExists(true)] + list;
  }

  lemma OwnSteps()
    ensures !IsChange(CheckExists(true))
  {
  }

  lemma OwnAndChanges(list: seq<Step>)
    requires forall i :: 0 <= i < |list| ==> IsChange(list[i])
    ensures var steps := [CheckExists(true)] + list; forall i :: 0 <= i < |steps| ==> !steps[i].Provision?
  {
    var steps := [CheckExists(true)] + list;
    forall i | 0 <= i < |steps| ensures !steps[i].Provision? {
      if i > 0 {
        assert steps[i] == list[i - 1];
      }
    }
  }

  lemma NothingRecorded(s: State, list: seq<Step>)
    requires s.stage == Ready && s.seen == EPOCH && s.attempt == NoAttempt
    requires forall i :: 0 <= i < |list| ==> IsChange(list[i])
    requires if list == [] then s.file.Some? && s.file.value.mtime == EPOCH
             else list[|list| - 1].Edit? && list[|list| - 1].mtime == EPOCH
    ensures IsStale(Run(s, list))
  {
    ChangesRun(s, list);
    hide Run;
  }

  lemma CheckFails(s: State)
    requires s.stage == Boot
    ensures Next(s, CheckExists(true)) == s.(stage := Ready, live := Clamp(s.live))
  {
    hide Clamp;
  }

  lemma OneThenRest(s: State, step: Step, rest: seq<Step>)
    requires !IsChange(step)
    ensures Run(s, [step] + rest) == Run(Next(s, step), rest) && Changes([step] + rest) == Changes(rest)
  {
    hide Next;
    assert ([step] + rest)[1..] == rest && [] + Changes(rest) == Changes(rest);
  }

  /** The file given by the changes so far is loaded, and its time comes back while it is read. */
  lemma ReturningTimeIsStale(s: State, before: seq<Step>, list: seq<Step>) returns (steps: seq<Step>)
    requires Starting(s) && forall i :: 0 <= i < |before| ==> IsChange(before[i])
    requires list != [] && forall i :: 0 <= i < |list| ==> IsChange(list[i])
    requires list[|list| - 1].Edit?
    requires if before == [] then s.file.Some? && s.file.value.mtime == list[|list| - 1].mtime
             else before[|before| - 1].Edit? && before[|before| - 1].mtime == list[|list| - 1].mtime
    ensures IsStale(Run(s, steps)) && Changes(steps) == before + list && forall i :: 0 <= i < |steps| ==> !steps[i].Provision?
  {
    hide Clamp, Next, Changes, Run;
    var tail := list + [Finish(false, Junk(list[|list| - 1].text))];
    steps := before + (LOAD + tail);
    ChangesRun(s, before);
    ChangesOfChanges(before);
    RunsJoin(s, before, LOAD + tail);
    var t := Run(s, before);
    assert t.stage == Boot;
    RunsJoin(t, LOAD, tail);
    LoadReads(t);
    ReadUnderChanges(Run(t, LOAD), list);
    assert [] + list == list;
  }

  /** A recurring time has a schedule that ends stale. */
  lemma StaleSchedule(s: State, changes: seq<Step>) returns (steps: seq<Step>)
    requires Starting(s) && !NoTimeRecurs(s, changes) && forall i :: 0 <= i < |changes| ==> IsChange(changes[i])
    ensures IsSchedule(s, changes, steps) && IsStale(Run(s, steps))
  {
    hide Run, Changes, IsStale, Starting;
    if s.file.Some? && s.file.value.mtime == EPOCH {
      steps := UnsetTimeIsStale(s, []);
    } else {
      var j :| 0 <= j < |changes| && changes[j].Edit? && HasTime(s, changes[..j], changes[j].mtime);
      var m, upTo := changes[j].mtime, changes[..j + 1];
      if m == EPOCH {
        steps := UnsetTimeIsStale(s, upTo);
      } else if s.file.Some? && m == s.file.value.mtime {
        steps := ReturningTimeIsStale(s, [], upTo);
        assert [] + upTo == upTo;
      } else {
        var i :| 0 <= i < j && changes[..j][i].Edit? && changes[..j][i].mtime == m;
        steps := ReturningTimeIsStale(s, changes[..i + 1], changes[i + 1..j + 1]);
        assert changes[..i + 1] + changes[i + 1..j + 1] == upTo;
      }
    }
  }

  lemma FreshIsNeverStale(s: State, changes: seq<Step>, steps: seq<Step>)
    requires Starting(s) && NoTimeRecurs(s, changes) && IsSchedule(s, changes, steps)
    ensures !IsStale(Run(s, steps))
  {
    hide Run, Changes, IsStale;
    assert changes[0..] == changes;
    ScheduleIsFresh(s, changes, 0, s, steps);
    NeverStale(s, steps);
  }

  /**
   * Exactly when hot reload never sticks on stale data: for every list of changes an editor makes, no schedule
   * of the app's steps among them is ever stale, if and only if no change brings back an earlier file time.
   */
  lemma NeverStaleIffNoTimeRecurs(s: State, changes: seq<Step>)
    requires Starting(s) && forall i :: 0 <= i < |changes| ==> IsChange(changes[i])
    ensures (forall steps :: IsSchedule(s, changes, steps) ==> !IsStale(Run(s, steps))) <==> NoTimeRecurs(s, changes)
  {
    hide Run, IsSchedule, IsStale, NoTimeRecurs, Starting;
    if NoTimeRecurs(s, changes) {
      forall steps | IsSchedule(s, changes, steps) ensures !IsStale(Run(s, steps)) {
        FreshIsNeverStale(s, changes, steps);
      }
    } else {
      var steps := StaleSchedule(s, changes);
      assert IsSchedule(s, changes, steps) && IsStale(Run(s, steps));
    }
  }

  // ---------------------------------------------------------------- never stale when each time labels one content

  /** Each file time stands for one content, but times may return. */
  predicate IsLabelled(s: State, step: Step, means: map<nat, string>) {
    match step
    case Edit(text, mtime) => mtime in means && means[mtime] == text
    case Provision(written, left, mtime) =>
      var text := if written then Some(Printed(Some(APP_CONFIG), ValuesOf(s.live))) else left;
      text.Some? ==> mtime in means && means[mtime] == text.value
    case _ => true
  }

  predicate LabelledRun(s: State, steps: seq<Step>, means: map<nat, string>)
    decreases |steps|
  {
    steps == [] || (IsLabelled(s, steps[0], means) && LabelledRun(Next(s, steps[0]), steps[1..], means))
  }

  predicate LabelInv(s: State, means: map<nat, string>) {
    && EPOCH !in means
    && (s.file.Some? ==> s.file.value.mtime in means && means[s.file.value.mtime] == s.file.value.text)
    && (s.stage in {Boot, Loading} ==> s.seen == EPOCH && !s.dirty)
    && (s.stage.Reading? && !s.stage.clean ==> s.dirty)
    && (s.stage.Opening? && !s.dirty && s.seen != EPOCH ==> s.file.Some? && s.seen == s.file.value.mtime)
    && (s.stage.Reading? && !s.dirty ==> s.file.Some? && (s.seen == EPOCH || s.seen == s.file.value.mtime))
    && (s.stage == Ready && s.seen != EPOCH && !s.dirty ==> s.seen in means && IsExact(s.attempt, means[s.seen]))
  }

  lemma LabelInvKept(s: State, step: Step, means: map<nat, string>)
    requires LabelInv(s, means) && IsLabelled(s, step, means)
    ensures LabelInv(Next(s, step), means)
  {
    hide Apply, Raises, Printed, Clamp;
  }

  lemma {:induction false} LabelInvHolds(s: State, steps: seq<Step>, means: map<nat, string>)
    requires LabelInv(s, means) && LabelledRun(s, steps, means)
    ensures LabelInv(Run(s, steps), means)
    decreases |steps|
  {
    hide LabelInv, Next, IsLabelled;
    if steps != [] {
      LabelInvKept(s, steps[0], means);
      LabelInvHolds(Next(s, steps[0]), steps[1..], means);
    }
  }

  /** The same when each time labels one content, provided no change fell between that stat and the read's end. */
  lemma NeverStaleUndisturbed(s: State, steps: seq<Step>, means: map<nat, string>)
    requires Starting(s) && LabelledRun(s, steps, means) && EPOCH !in means
    requires s.file.Some? ==> s.file.value.mtime in means && means[s.file.value.mtime] == s.file.value.text
    ensures var t := Run(s, steps);
            t.stage == Ready && t.file.Some? && t.seen == t.file.value.mtime && !t.dirty ==>
              IsExact(t.attempt, t.file.value.text)
  {
    hide Run, LabelledRun;
    LabelInvHolds(s, steps, means);
    assert LabelInv(Run(s, steps), means);
  }

  /**
   * Labelling alone is not enough: change the file after the stat, let the read see that, and put the old file
   * back with its old time. The app has read the other content and no later poll looks again.
   */
  lemma OldTimeHidesOldContent(s: State, text: string, mtime: nat, other: string, otherTime: nat, polls: nat)
    requires s.stage == Ready && s.file == Some(Entry(text, mtime)) && s.seen != mtime
    requires other != text && otherTime != mtime && !Raises(s.live, other)
    ensures var t := Run(s, [Poll(true), Edit(other, otherTime), Open(true), Finish(false, ""), Edit(text, mtime)]);
            && LabelledRunOf(s, [Poll(true), Edit(other, otherTime), Open(true), Finish(false, ""), Edit(text, mtime)],
                             map[mtime := text, otherTime := other])
            && t.stage == Ready && t.file == s.file && t.seen == mtime && t.attempt == Saw(other)
            && Run(t, Polls(polls)) == t
  {
    hide Apply, Raises, Clamp;
    var steps := [Poll(true), Edit(other, otherTime), Open(true), Finish(false, ""), Edit(text, mtime)];
    var s1 := Next(s, steps[0]);
    var s2 := Next(s1, steps[1]);
    var s3 := Next(s2, steps[2]);
    var s4 := Next(s3, steps[3]);
    var t := Next(s4, steps[4]);
    RunFive(s, steps[0], steps[1], steps[2], steps[3], steps[4]);
    PollsDoNothing(t, polls);
  }

  /** Every edit of a list of steps carries the content its time stands for. */
  predicate LabelledRunOf(s: State, steps: seq<Step>, means: map<nat, string>) {
    forall i :: 0 <= i < |steps| && steps[i].Edit? ==> steps[i].mtime in means && means[steps[i].mtime] == steps[i].text
  }

  lemma RunFive(s: State, a: Step, b: Step, c: Step, d: Step, e: Step)
    ensures Run(s, [a, b, c, d, e]) == Next(Next(Next(Next(Next(s, a), b), c), d), e)
  {
    hide Next;
    assert [a, b, c, d, e][1..] == [b, c, d, e] && [b, c, d, e][1..] == [c, d, e];
    assert [c, d, e][1..] == [d, e] && [d, e][1..] == [e] && [e][1..] == [];
    var s4 := Next(Next(Next(Next(s, a), b), c), d);
    assert Run(s4, [e]) == Run(Next(s4, e), []);
    assert Run(Next(Next(s, a), b), [c, d, e]) == Run(Next(Next(Next(s, a), b), c), [d, e]);
  }

  function Polls(n: nat): seq<Step> {
    if n == 0 then [] else [Poll(true)] + Polls(n - 1)
  }

  lemma {:induction false} PollsDoNothing(s: State, n: nat)
    requires s.stage == Ready && s.file.Some? && s.seen == s.file.value.mtime
    ensures Run(s, Polls(n)) == s
  {
    if n > 0 {
      assert Polls(n)[1..] == Polls(n - 1);
      PollsDoNothing(s, n - 1);
    }
  }

  /** A read that fails after its stat is recorded is not tried again until the file changes. */
  lemma FailedReadSticks(s: State, polls: nat)
    requires s.stage == Ready && s.file.Some? && s.seen != s.file.value.mtime
    ensures var t := Run(s, [Poll(true), Open(false)]);
            t.stage == Ready && t.file == s.file && t.live == s.live && t.attempt == Unread(true) && Run(t, Polls(polls)) == t
  {
    var s1 := Next(s, Poll(true));
    var t := Next(s1, Open(false));
    assert [Poll(true), Open(false)][1..] == [Open(false)] && [Open(false)][1..] == [];
    assert Run(s1, [Open(false)]) == Run(t, []);
    PollsDoNothing(t, polls);
  }

  // ---------------------------------------------------------------- once edits stop

  predicate IsQuiet(step: Step) {
    !step.Edit? && !step.Remove?
  }

  predicate AllQuiet(steps: seq<Step>) {
    forall i :: 0 <= i < |steps| ==> IsQuiet(steps[i])
  }

  /** One if a poll that finds the app idle would act. */
  function Owed(s: State): nat {
    if s.file.Some? && s.seen != s.file.value.mtime then 1 else 0
  }

  /** Without edits, from any state after loading, at most one more poll acts. */
  lemma {:induction false} AtMostOneMoreActs(s: State, steps: seq<Step>)
    requires Loaded(s) && AllQuiet(steps)
    ensures Run(s, steps).acted + Owed(Run(s, steps)) <= s.acted + Owed(s) <= s.acted + 1
    ensures Run(s, steps).file == s.file
    decreases |steps|
  {
    hide Apply, Raises, Clamp;
    if steps != [] {
      assert IsQuiet(steps[0]);
      AtMostOneMoreActs(Next(s, steps[0]), steps[1..]);
    }
  }

  /** Once a poll has answered without edits in between, every later one is unchanged. */
  lemma SettledStays(s: State, before: seq<Step>, after: seq<Step>)
    requires s.stage == Ready && s.file.Some? && AllQuiet(before) && AllQuiet(after)
    ensures var t := Run(Next(s, Poll(true)), before);
            t.file.Some? && t.seen == t.file.value.mtime && Run(t, after).acted == t.acted <= s.acted + 1
  {
    hide Run, AllQuiet;
    var s' := Next(s, Poll(true));
    assert Loaded(s') && Owed(s') == 0 && s'.acted <= s.acted + 1;
    LoadedStays(s', before);
    AtMostOneMoreActs(s', before);
    var t := Run(s', before);
    AtMostOneMoreActs(t, after);
    ActedGrows(s', before);
    ActedGrows(t, after);
  }

  lemma {:induction false} LoadedStays(s: State, steps: seq<Step>)
    requires Loaded(s)
    ensures Loaded(Run(s, steps))
    decreases |steps|
  {
    hide Apply, Raises, Clamp;
    if steps != [] {
      LoadedStays(Next(s, steps[0]), steps[1..]);
    }
  }

  lemma {:induction false} ActedGrows(s: State, steps: seq<Step>)
    ensures s.acted <= Run(s, steps).acted
    decreases |steps|
  {
    hide Apply, Raises, Clamp;
    if steps != [] {
      ActedGrows(Next(s, steps[0]), steps[1..]);
    }
  }

  lemma {:induction false} QuietIsFresh(s: State, steps: seq<Step>)
    requires Loaded(s) && AllQuiet(steps) && forall i :: 0 <= i < |steps| ==> !steps[i].Provision?
    ensures FreshRun(s, steps)
    decreases |steps|
  {
    hide Next, Loaded;
    if steps != [] {
      assert IsQuiet(steps[0]) && !steps[0].Provision?;
      LoadedStays(s, [steps[0]]);
      assert [steps[0]][1..] == [] && Run(s, [steps[0]]) == Run(Next(s, steps[0]), []);
      QuietIsFresh(Next(s, steps[0]), steps[1..]);
    }
  }

  /**
   * Hot reload converges: after any run in which no file time recurs, once edits stop and one poll has been
   * carried through, the last attempt is on exactly the file's content, and every later poll is unchanged.
   */
  lemma Converges(s: State, edits: seq<Step>, rest: seq<Step>, more: seq<Step>)
    requires Starting(s) && (s.file.Some? ==> s.file.value.mtime != EPOCH) && FreshRun(s, edits)
    requires Run(s, edits).stage == Ready && Run(s, edits).file.Some?
    requires AllQuiet(rest) && AllQuiet(more) && forall i :: 0 <= i < |rest| ==> !rest[i].Provision?
    requires Run(Next(Run(s, edits), Poll(true)), rest).stage == Ready
    ensures var t := Run(Next(Run(s, edits), Poll(true)), rest);
            && t.file == Run(s, edits).file && IsExact(t.attempt, t.file.value.text)
            && Run(t, more).acted == t.acted <= Run(s, edits).acted + 1
  {
    hide Run, FreshRun, AllQuiet;
    var u := Run(s, edits);
    var v := Next(u, Poll(true));
    SettledStays(u, rest, more);
    InvHolds(s, edits);
    InvKept(u, Poll(true));
    QuietIsFresh(v, rest);
    InvHolds(v, rest);
    AtMostOneMoreActs(v, rest);
  }
}
