/**
 * The Java Native Interface as native code meets it: every call may fail however it likes, references are
 * tracked, and a log of the calls is judged by a separate automaton for the interface's rules.
 */
module JniEnv {
  import opened Common

  /** A reference id; null is None. Ids are never reused. */
  type Ref = nat

  datatype Fn =
    | ExceptionCheck | ExceptionDescribe | ExceptionClear
    | DeleteLocalRef | DeleteGlobalRef | ReleaseStringUTFChars
    | FindClass | GetObjectClass | GetMethodID | GetStaticMethodID | CallMethod | NewObject
    | NewStringUTF | NewDirectByteBuffer | GetStringUTFChars | NewLocalRef | NewGlobalRef

  /** What a call is for: the class, method, text or copy it names. */
  datatype Name =
    | Unnamed
    | ActivityThread | CurrentApplication | GetClassLoader
    | DexBytes | InMemoryDexClassLoader | DexBytesForUpgrade
    | ProviderName | LoadClassMethod | LoadProvider | Provider | ResourceAwareLoader | BootstrapCopy
    | ClassName | LoadClass | ClassGlobal | ApplicationGlobal
    | GetFilesDir | GetAbsolutePath | PathText

  /** The functions chapter 2, "Exception Handling", allows while an exception is pending. */
  predicate SafeWhilePending(fn: Fn) {
    fn.ExceptionCheck? || fn.ExceptionDescribe? || fn.ExceptionClear? ||
    fn.DeleteLocalRef? || fn.DeleteGlobalRef? || fn.ReleaseStringUTFChars?
  }

  /** `ok` says whether the call gave what it was asked for. */
  datatype Event = Event(fn: Fn, name: Name, args: seq<Option<Ref>>, ok: bool, threw: bool, made: Option<Ref>)

  /** How the environment answers one call. */
  datatype Fate = Gives | Nulls | Throws

  predicate CanFail(fn: Fn) {
    !SafeWhilePending(fn)
  }

  /** The event is what a call that meets this fate looks like. */
  predicate Meets(e: Event, fate: Fate) {
    if CanFail(e.fn) then e.ok == fate.Gives? && e.threw == fate.Throws? else e.ok && !e.threw
  }

  /**
   * Failures chapter 4 gives no room for, where the dex loader is not ready for them: GetObjectClass yields no
   * class inside the upgrade, and the first promotion or the copy of the bootstrap loader throws.
   */
  predicate IsCause(e: Event) {
    || (e.fn.GetObjectClass? && e.name.LoadClassMethod? && e.made.None?)
    || (e.fn.NewLocalRef? && e.threw)
    || (e.fn.NewGlobalRef? && e.name.ClassGlobal? && e.threw)
  }

  /**
   * What the calls since `entry` were, in any order: the events, the names of the failed ones, and whether one
   * of them is a cause.
   */
  datatype Past = Past(entry: seq<Event>, seen: set<Event>, failed: set<Name>, cause: bool)

  predicate Later(before: Past, after: Past) {
    before.entry == after.entry && before.seen <= after.seen && before.failed <= after.failed
  }

  /** Later, with no cause in between. */
  predicate Steady(before: Past, after: Past) {
    Later(before, after) && after.cause == before.cause
  }

  function Seen(past: Past, e: Event): Past {
    Past(past.entry, past.seen + {e}, if e.ok then past.failed else past.failed + {e.name}, past.cause || IsCause(e))
  }

  function Recalled(entry: seq<Event>, log: seq<Event>): Past {
    if log == [] then Past(entry, {}, {}, false) else Seen(Recalled(entry, log[..|log| - 1]), log[|log| - 1])
  }

  lemma {:induction false} RecalledMeans(entry: seq<Event>, log: seq<Event>)
    ensures var past := Recalled(entry, log);
            && (forall e :: e in past.seen <==> e in log)
            && (forall name :: name in past.failed <==> exists e :: e in log && e.name == name && !e.ok)
            && (past.cause <==> exists e :: e in log && IsCause(e))
  {
    if log != [] {
      var init, last := log[..|log| - 1], log[|log| - 1];
      RecalledMeans(entry, init);
      assert log == init + [last];
      assert forall e :: e in log <==> e in init || e == last;
    }
  }

  /** `broken` is set by the first call that breaks a rule and stays set; `chars` counts unreleased strings. */
  datatype Jni = Jni(pending: bool, locals: set<Ref>, globals: set<Ref>, chars: nat, broken: bool)

  predicate Live(j: Jni, arg: Option<Ref>) {
    arg.Some? && (arg.value in j.locals || arg.value in j.globals)
  }

  predicate Allowed(j: Jni, e: Event) {
    && (j.pending ==> SafeWhilePending(e.fn))
    && (forall i :: 0 <= i < |e.args| ==> Live(j, e.args[i]))
    && (e.fn.DeleteLocalRef? ==> |e.args| == 1 && e.args[0].value in j.locals)
    && (e.fn.DeleteGlobalRef? ==> |e.args| == 1 && e.args[0].value in j.globals)
    && (e.fn.ReleaseStringUTFChars? ==> j.chars > 0)
    && (e.made.Some? ==> e.made.value !in j.locals && e.made.value !in j.globals)
  }

  function Freed(e: Event): set<Ref> {
    if |e.args| == 1 && e.args[0].Some? then {e.args[0].value} else {}
  }

  function Made(e: Event): set<Ref> {
    if e.made.Some? then {e.made.value} else {}
  }

  function After(j: Jni, e: Event): Jni {
    Jni(
      !e.fn.ExceptionClear? && (j.pending || e.threw),
      if e.fn.DeleteLocalRef? then j.locals - Freed(e) else if e.fn.NewGlobalRef? then j.locals else j.locals + Made(e),
      if e.fn.DeleteGlobalRef? then j.globals - Freed(e) else if e.fn.NewGlobalRef? then j.globals + Made(e) else j.globals,
      if e.fn.ReleaseStringUTFChars? && j.chars > 0 then j.chars - 1
      else if e.fn.GetStringUTFChars? && !e.threw && e.args != [] then j.chars + 1 else j.chars,
      j.broken || !Allowed(j, e))
  }

  /** The automaton: what a log of calls does to the interface's state. */
  function Replay(j: Jni, log: seq<Event>): Jni {
    if log == [] then j else After(Replay(j, log[..|log| - 1]), log[|log| - 1])
  }

  lemma ReplayOne(j: Jni, log: seq<Event>, e: Event)
    ensures Replay(j, log + [e]) == After(Replay(j, log), e)
  {
    assert (log + [e])[..|log|] == log;
  }

  lemma Queries(j: Jni)
    ensures After(j, Event(ExceptionCheck, Unnamed, [], true, false, None)) == j
    ensures After(j, Event(ExceptionDescribe, Unnamed, [], true, false, None)) == j
    ensures After(j, Event(ExceptionClear, Unnamed, [], true, false, None)) == j.(pending := false)
  {
  }

  lemma LookedUp(j: Jni, fn: Fn, name: Name, clazz: Option<Ref>, found: bool, threw: bool)
    requires fn.GetMethodID? || fn.GetStaticMethodID?
    ensures After(j, Event(fn, name, [clazz], found, threw, None)) ==
            j.(pending := j.pending || threw, broken := j.broken || j.pending || !Live(j, clazz))
  {
    var e := Event(fn, name, [clazz], found, threw, None);
    if Allowed(j, e) {
      assert Live(j, e.args[0]);
    }
  }

  lemma PinnedOrNot(j: Jni, s: Option<Ref>, pinned: bool, threw: bool)
    requires Live(j, s) && !j.pending && (threw ==> !pinned)
    ensures After(j, Event(GetStringUTFChars, PathText, if pinned then [s] else [], pinned, threw, None)) ==
            if pinned then j.(chars := j.chars + 1) else j.(pending := threw)
  {
    if pinned {
      var e := Event(GetStringUTFChars, PathText, [s], pinned, threw, None);
      assert e.args[0] == s;
    }
  }

  function Count(p: bool): nat {
    if p then 1 else 0
  }

  function TimesMade(log: seq<Event>, r: Ref): nat {
    if log == [] then 0
    else TimesMade(log[..|log| - 1], r) + Count(!log[|log| - 1].fn.NewGlobalRef? && log[|log| - 1].made == Some(r))
  }

  function TimesDeleted(log: seq<Event>, r: Ref): nat {
    if log == [] then 0
    else TimesDeleted(log[..|log| - 1], r) + Count(log[|log| - 1].fn.DeleteLocalRef? && log[|log| - 1].args == [Some(r)])
  }

  /** Deletions never make references, and neither does a failed call. */
  predicate Sensible(e: Event) {
    e.fn.DeleteLocalRef? || e.fn.DeleteGlobalRef? || !e.ok ==> e.made.None?
  }

  /** A log that breaks no rule deletes each local reference exactly as often as its life demands. */
  lemma {:induction false} Ledger(j: Jni, log: seq<Event>, r: Ref)
    requires !Replay(j, log).broken && forall i :: 0 <= i < |log| ==> Sensible(log[i])
    ensures Count(r in j.locals) + TimesMade(log, r) == TimesDeleted(log, r) + Count(r in Replay(j, log).locals)
  {
    if log != [] {
      var init, e := log[..|log| - 1], log[|log| - 1];
      var before := Replay(j, init);
      assert forall i :: 0 <= i < |init| ==> Sensible(init[i]);
      assert Sensible(e);
      Ledger(j, init, r);
      if e.fn.DeleteLocalRef? {
        assert Live(before, e.args[0]);
        assert e.args == [e.args[0]];
      }
    }
  }

  /**
   * Native code that leaves the live local references as it found them, without breaking a rule, has deleted
   * every local reference it made, once for each time it was made.
   */
  lemma DeletedExactlyOnce(j: Jni, log: seq<Event>, r: Ref)
    requires !Replay(j, log).broken && forall i :: 0 <= i < |log| ==> Sensible(log[i])
    requires Replay(j, log).locals == j.locals
    ensures TimesDeleted(log, r) == TimesMade(log, r)
  {
    Ledger(j, log, r);
  }

  /** Promoting two references without a check in between is only safe while the first promotion cannot throw. */
  lemma ThrowingPromotionBreaks(j: Jni, a: Ref, b: Ref, made: Option<Ref>)
    ensures var first := Event(NewGlobalRef, ClassGlobal, [Some(a)], false, true, None);
            var second := Event(NewGlobalRef, ApplicationGlobal, [Some(b)], made.Some?, false, made);
            Replay(j, [first, second]).broken
  {
    var first := Event(NewGlobalRef, ClassGlobal, [Some(a)], false, true, None);
    var second := Event(NewGlobalRef, ApplicationGlobal, [Some(b)], made.Some?, false, made);
    assert [first] + [second] == [first, second] && [] + [first] == [first];
    ReplayOne(j, [], first);
    ReplayOne(j, [first], second);
  }

  /** No reference is made twice, and none from `next` on has been made. */
  ghost predicate MadeOnce(log: seq<Event>, next: Ref) {
    forall r: Ref :: TimesMade(log, r) <= 1 && (r >= next ==> TimesMade(log, r) == 0)
  }

  lemma MadeOnceStep(log: seq<Event>, next: Ref, e: Event)
    requires MadeOnce(log, next) && (e.made.Some? ==> e.made.value == next)
    ensures MadeOnce(log + [e], if e.made.Some? then next + 1 else next)
  {
    assert (log + [e])[..|log|] == log;
  }

  lemma {:induction false} ReplayJoin(j: Jni, a: seq<Event>, b: seq<Event>)
    ensures Replay(j, a + b) == Replay(Replay(j, a), b)
  {
    hide After;
    if b == [] {
      assert a + b == a;
    } else {
      assert (a + b)[..|a + b| - 1] == a + b[..|b| - 1];
      ReplayJoin(j, a, b[..|b| - 1]);
    }
  }

  lemma {:induction false} TimesMadeJoin(a: seq<Event>, b: seq<Event>, r: Ref)
    ensures TimesMade(a + b, r) == TimesMade(a, r) + TimesMade(b, r)
  {
    if b == [] {
      assert a + b == a;
    } else {
      assert (a + b)[..|a + b| - 1] == a + b[..|b| - 1];
      TimesMadeJoin(a, b[..|b| - 1], r);
    }
  }

  ghost predicate IsPast(past: Past, log: seq<Event>) {
    past.entry <= log && past == Recalled(past.entry, log[|past.entry|..])
  }

  lemma PastStep(past: Past, log: seq<Event>, e: Event)
    requires IsPast(past, log)
    ensures IsPast(Seen(past, e), log + [e])
  {
    var since := log[|past.entry|..];
    assert (log + [e])[|past.entry|..] == since + [e];
    assert (since + [e])[..|since|] == since;
  }

  /** The log is what calls meeting these fates look like. */
  ghost predicate Answers(fate: (nat, Fn, Name) -> Fate, log: seq<Event>) {
    forall i: nat :: i < |log| ==> Sensible(log[i]) && Meets(log[i], fate(i, log[i].fn, log[i].name))
  }

  lemma AnswersStep(fate: (nat, Fn, Name) -> Fate, log: seq<Event>, e: Event)
    requires Answers(fate, log) && Sensible(e) && Meets(e, fate(|log|, e.fn, e.name))
    ensures Answers(fate, log + [e])
  {
  }

  class Env {
    const start: Jni
    /** Every behaviour of the environment is some choice of a fate for each call, by its position in the log. */
    const fate: (nat, Fn, Name) -> Fate
    ghost var log: seq<Event>
    ghost var past: Past
    var calls: nat
    var state: Jni
    var next: Ref

    ghost predicate Valid()
      reads this
    {
      && calls == |log| && state == Replay(start, log)
      && IsPast(past, log) && Answers(fate, log)
      && (forall r :: r in state.locals || r in state.globals ==> r < next)
      && MadeOnce(log, next)
    }

    /** The events since entry. */
    ghost function Since(): seq<Event>
      reads this
      requires IsPast(past, log)
    {
      log[|past.entry|..]
    }

    constructor (locals: set<Ref>, globals: set<Ref>, next: Ref, fate: (nat, Fn, Name) -> Fate)
      requires forall r :: r in locals || r in globals ==> r < next
      ensures Valid() && log == [] && start == Jni(false, locals, globals, 0, false) && state == start && this.fate == fate
    {
      start := Jni(false, locals, globals, 0, false);
      state := Jni(false, locals, globals, 0, false);
      log, past, calls := [], Past([], {}, {}, false), 0;
      this.next, this.fate := next, fate;
    }

    /** Starts looking back from here. */
    ghost method Mark()
      requires Valid()
      modifies `past
      ensures Valid() && past == Past(log, {}, {}, false) && Replay(start, past.entry) == state
    {
      past := Past(log, {}, {}, false);
      assert log[|log|..] == [];
    }

    method Record(e: Event)
      requires Valid() && Sensible(e) && (e.made.Some? ==> e.made.value == next) && Meets(e, fate(calls, e.fn, e.name))
      modifies this
      ensures Valid() && state == After(old(state), e) && past == Seen(old(past), e)
      ensures next == if e.made.Some? then old(next) + 1 else old(next)
    {
      hide Replay, Recalled, MadeOnce, Meets, Answers, IsPast, Seen;
      ReplayOne(start, log, e);
      PastStep(past, log, e);
      AnswersStep(fate, log, e);
      MadeOnceStep(log, next, e);
      log, past, calls := log + [e], Seen(past, e), calls + 1;
      state := After(state, e);
      next := if e.made.Some? then next + 1 else next;
    }

    method Check() returns (pending: bool)
      requires Valid()
      modifies this
      ensures Valid() && state == old(state) && pending == state.pending && Steady(old(past), past)
    {
      hide After, Replay, Recalled, MadeOnce;
      Queries(state);
      Record(Event(ExceptionCheck, Unnamed, [], true, false, None));
      pending := state.pending;
    }

    method Describe()
      requires Valid()
      modifies this
      ensures Valid() && state == old(state) && Steady(old(past), past)
    {
      hide After, Replay, Recalled, MadeOnce;
      Queries(state);
      Record(Event(ExceptionDescribe, Unnamed, [], true, false, None));
    }

    method Clear()
      requires Valid()
      modifies this
      ensures Valid() && state == old(state).(pending := false) && Steady(old(past), past)
    {
      hide After, Replay, Recalled, MadeOnce;
      Queries(state);
      Record(Event(ExceptionClear, Unnamed, [], true, false, None));
    }

    /** Any call that yields a new local reference: it may throw, which yields null, or just yield null. */
    method Acquire(fn: Fn, name: Name, args: seq<Option<Ref>>) returns (r: Option<Ref>, ghost threw: bool)
      requires Valid() && !SafeWhilePending(fn) && !fn.NewGlobalRef? && !fn.GetStringUTFChars?
      modifies this
      ensures Valid() && old(next) <= next
      ensures threw ==> r.None?
      ensures r.Some? ==> old(next) <= r.value < next
      ensures state == After(old(state), Event(fn, name, args, r.Some?, threw, r))
      ensures past == Seen(old(past), Event(fn, name, args, r.Some?, threw, r))
    {
      hide After, Replay, Recalled, MadeOnce;
      var f := fate(calls, fn, name);
      r := if f.Gives? then Some(next) else None;
      threw := f.Throws?;
      Record(Event(fn, name, args, r.Some?, f.Throws?, r));
    }

    /** GetMethodID and GetStaticMethodID: ids are not references, but the class argument is. */
    method Lookup(fn: Fn, name: Name, clazz: Option<Ref>) returns (found: bool, ghost threw: bool)
      requires Valid() && (fn.GetMethodID? || fn.GetStaticMethodID?)
      modifies this
      ensures Valid() && Steady(old(past), past) && (threw ==> !found) && (!found ==> name in past.failed)
      ensures found ==> Event(fn, name, [clazz], true, false, None) in past.seen
      ensures state == old(state).(pending := old(state).pending || threw,
                broken := old(state).broken || old(state).pending || !Live(old(state), clazz))
    {
      hide Replay, Recalled, MadeOnce;
      var f := fate(calls, fn, name);
      found, threw := f.Gives?, f.Throws?;
      LookedUp(state, fn, name, clazz, found, f.Throws?);
      Record(Event(fn, name, [clazz], found, f.Throws?, None));
    }

    method DeleteLocal(r: Ref)
      requires Valid()
      modifies this
      ensures Valid() && Steady(old(past), past)
      ensures state == After(old(state), Event(DeleteLocalRef, Unnamed, [Some(r)], true, false, None))
    {
      hide After, Replay, Recalled, MadeOnce;
      Record(Event(DeleteLocalRef, Unnamed, [Some(r)], true, false, None));
    }

    method Promote(name: Name, r: Ref) returns (g: Option<Ref>, ghost threw: bool)
      requires Valid()
      modifies this
      ensures Valid() && old(next) <= next
      ensures threw ==> g.None?
      ensures g.Some? ==> old(next) <= g.value < next
      ensures state == After(old(state), Event(NewGlobalRef, name, [Some(r)], g.Some?, threw, g))
      ensures past == Seen(old(past), Event(NewGlobalRef, name, [Some(r)], g.Some?, threw, g))
    {
      hide After, Replay, Recalled, MadeOnce;
      var f := fate(calls, NewGlobalRef, name);
      g := if f.Gives? then Some(next) else None;
      threw := f.Throws?;
      Record(Event(NewGlobalRef, name, [Some(r)], g.Some?, f.Throws?, g));
    }

    method DeleteGlobal(r: Ref)
      requires Valid()
      modifies this
      ensures Valid() && Steady(old(past), past)
      ensures state == After(old(state), Event(DeleteGlobalRef, Unnamed, [Some(r)], true, false, None))
    {
      hide After, Replay, Recalled, MadeOnce;
      Record(Event(DeleteGlobalRef, Unnamed, [Some(r)], true, false, None));
    }

    /** Pins a string's characters; null without an exception is logged as a call that pinned nothing. */
    method PinChars(s: Option<Ref>) returns (pinned: bool)
      requires Valid() && Live(state, s) && !state.pending
      modifies this
      ensures Valid() && Steady(old(past), past)
      ensures pinned ==> state == old(state).(chars := old(state).chars + 1) &&
                         Event(GetStringUTFChars, PathText, [s], true, false, None) in past.seen
      ensures !pinned ==> state == old(state).(pending := state.pending) && PathText in past.failed
    {
      hide Replay, Recalled, MadeOnce;
      var f := fate(calls, GetStringUTFChars, PathText);
      pinned := f.Gives?;
      PinnedOrNot(state, s, pinned, f.Throws?);
      hide After;
      Record(Event(GetStringUTFChars, PathText, if pinned then [s] else [], pinned, f.Throws?, None));
    }

    method ReleaseChars(s: Option<Ref>)
      requires Valid() && Live(state, s) && state.chars > 0
      modifies this
      ensures Valid() && Steady(old(past), past) && state == old(state).(chars := old(state).chars - 1)
    {
      hide Replay, Recalled, MadeOnce;
      Record(Event(ReleaseStringUTFChars, Unnamed, [s], true, false, None));
    }
  }

  /**
   * Between entry and a state with the same live locals and no rule broken, every local reference made was
   * deleted exactly once, and nothing else was deleted.
   */
  lemma EachDeletedOnce(env: Env, r: Ref)
    requires env.Valid() && !env.state.broken && Replay(env.start, env.past.entry).locals == env.state.locals
    ensures TimesDeleted(env.Since(), r) == TimesMade(env.Since(), r) <= 1
  {
    hide Replay, TimesMade, TimesDeleted, Recalled, Allowed, After;
    var entry, since := env.past.entry, env.Since();
    assert env.log == entry + since;
    ReplayJoin(env.start, entry, since);
    TimesMadeJoin(entry, since, r);
    SuffixSensible(env.fate, entry, since);
    DeletedExactlyOnce(Replay(env.start, entry), since, r);
  }

  lemma SuffixSensible(fate: (nat, Fn, Name) -> Fate, a: seq<Event>, b: seq<Event>)
    requires Answers(fate, a + b)
    ensures forall i :: 0 <= i < |b| ==> Sensible(b[i])
  {
    forall i | 0 <= i < |b| ensures Sensible(b[i]) {
      var k: nat := |a| + i;
      assert (a + b)[k] == b[i];
    }
  }

  /** What the summary of the calls since entry says, said of the calls themselves. */
  lemma PastMeans(env: Env)
    requires env.Valid()
    ensures forall e :: e in env.past.seen <==> e in env.Since()
    ensures forall name :: name in env.past.failed <==> exists e :: e in env.Since() && e.name == name && !e.ok
    ensures env.past.cause <==> exists e :: e in env.Since() && IsCause(e)
  {
    RecalledMeans(env.past.entry, env.Since());
  }
}
