/**
 * jni/ref.hpp, jni/call.hpp, jni/files_dir.hpp and jni/dex_loader.hpp against an environment in which every
 * call may fail. Destructors are written out where C++ runs them.
 */
module DexLoader {
  import opened Common
  import opened JniEnv

  // ---------------------------------------------------------------- ref.hpp

  /** RAII owner of one local reference. */
  class LocalRef {
    var env: Env?
    var obj: Option<Ref>

    constructor (env: Env, obj: Option<Ref>)
      ensures this.obj == obj && Owns(env)
    {
      this.env := if obj.Some? then env else null;
      this.obj := obj;
    }

    /** A non-null reference remembers the environment it must be released through; null remembers none. */
    predicate Owns(e: Env)
      reads this
    {
      env == if obj.Some? then e else null
    }

    method Reset()
      requires env != null ==> env.Valid()
      modifies this, env
      ensures obj.None? && env == null
      ensures old(env) != null ==> old(env).Valid() && Steady(old(env.past), old(env).past)
      ensures old(env) != null ==>
                old(env).state == if old(obj).Some? then After(old(env.state), Event(DeleteLocalRef, Unnamed, [old(obj)], true, false, None))
                                  else old(env.state)
    {
      if obj.Some? && env != null {
        env.DeleteLocal(obj.value);
      }
      env, obj := null, None;
    }

    /** Move assignment: release what is held, then take over, leaving the source empty. */
    method MoveFrom(other: LocalRef)
      requires other != this && (env != null ==> env.Valid())
      modifies this, other, env
      ensures obj == old(other.obj) && env == old(other.env)
      ensures other.obj.None? && other.env == null
      ensures old(env) != null ==> old(env).Valid() && Steady(old(env.past), old(env).past)
      ensures old(env) != null ==>
                old(env).state == if old(obj).Some? then After(old(env.state), Event(DeleteLocalRef, Unnamed, [old(obj)], true, false, None))
                                  else old(env.state)
    {
      Reset();
      env, obj := other.env, other.obj;
      other.env, other.obj := null, None;
    }
  }

  /** RAII-less owner of one global reference: it must be reset with an environment. */
  class GlobalRef {
    var obj: Option<Ref>

    constructor ()
      ensures obj.None?
    {
      obj := None;
    }

    /** Promotes a still-owned reference; null stays null without a call. */
    method PromoteFrom(env: Env, name: Name, local: Option<Ref>) returns (ghost threw: bool)
      requires env.Valid() && obj.None? && (local.Some? ==> Live(env.state, local))
      modifies this, env
      ensures env.Valid() && Later(old(env.past), env.past) && (threw ==> obj.None?)
      ensures env.past.cause == (old(env.past.cause) || (threw && name.ClassGlobal?))
      ensures obj.Some? ==> New(old(env.state), obj.value) && Gave(env.past, NewGlobalRef, name, [local], obj)
      ensures obj.None? && local.Some? ==> name in env.past.failed
      ensures local.None? ==> obj.None? && !threw && env.state == old(env.state)
      ensures local.Some? ==> env.state == old(env.state).(
                pending := old(env.state).pending || threw, broken := old(env.state).broken || old(env.state).pending,
                globals := old(env.state).globals + Held(obj))
    {
      threw := false;
      if local.Some? {
        obj, threw := env.Promote(name, local.value);
      }
    }

    method Reset(env: Env)
      requires env.Valid() && (obj.Some? ==> obj.value in env.state.globals)
      modifies this, env
      ensures obj.None? && env.Valid() && Steady(old(env.past), env.past)
      ensures env.state == old(env.state).(globals := old(env.state).globals - Held(old(obj)))
    {
      if obj.Some? {
        env.DeleteGlobal(obj.value);
      }
      obj := None;
    }
  }

  /** A call that gave this reference, as the log tells it. */
  ghost predicate Gave(past: Past, fn: Fn, name: Name, args: seq<Option<Ref>>, r: Option<Ref>) {
    r.Some? && Event(fn, name, args, true, false, r) in past.seen
  }

  /** A method id was found in this class. */
  ghost predicate Found(past: Past, fn: Fn, name: Name, clazz: Option<Ref>) {
    Event(fn, name, [clazz], true, false, None) in past.seen
  }

  /** The method was looked up in the object's own class. */
  ghost predicate MethodOf(past: Past, name: Name, obj: Option<Ref>) {
    exists c: Ref :: Event(GetObjectClass, name, [obj], true, false, Some(c)) in past.seen &&
                     Event(GetMethodID, name, [Some(c)], true, false, None) in past.seen
  }

  predicate New(j: Jni, r: Ref) {
    r !in j.locals && r !in j.globals
  }

  function Held(obj: Option<Ref>): set<Ref> {
    if obj.Some? then {obj.value} else {}
  }

  /** Releasing one live local reference, pending exception or not, just removes it. */
  lemma Release(j: Jni, r: Ref)
    requires r in j.locals
    ensures After(j, Event(DeleteLocalRef, Unnamed, [Some(r)], true, false, None)) == j.(locals := j.locals - {r})
  {
  }

  lemma Acquired(j: Jni, fn: Fn, name: Name, args: seq<Option<Ref>>, threw: bool, r: Option<Ref>)
    requires !SafeWhilePending(fn) && !fn.NewGlobalRef? && !fn.GetStringUTFChars?
    requires forall i :: 0 <= i < |args| ==> Live(j, args[i])
    requires r.Some? ==> r.value !in j.locals && r.value !in j.globals
    ensures After(j, Event(fn, name, args, r.Some?, threw, r)) ==
            j.(pending := j.pending || threw, locals := j.locals + Held(r), broken := j.broken || j.pending)
  {
  }

  // ---------------------------------------------------------------- call.hpp

  method CheckAndClearException(env: Env) returns (was: bool)
    requires env.Valid()
    modifies env
    ensures env.Valid() && Steady(old(env.past), env.past)
    ensures was == old(env.state).pending && env.state == old(env.state).(pending := false)
  {
    was := env.Check();
    if was {
      env.Describe();
      env.Clear();
    }
  }

  /** Acquires a reference through live arguments and wraps it; an exception comes with null. */
  method Obtain(env: Env, fn: Fn, name: Name, args: seq<Option<Ref>>) returns (r: LocalRef)
    requires env.Valid() && !SafeWhilePending(fn) && !fn.NewGlobalRef? && !fn.GetStringUTFChars?
    requires forall i :: 0 <= i < |args| ==> Live(env.state, args[i])
    modifies env
    ensures fresh(r) && r.Owns(env) && env.Valid() && Later(old(env.past), env.past)
    ensures r.obj.Some? ==> New(old(env.state), r.obj.value) && env.state.pending == old(env.state).pending
    ensures r.obj.Some? ==> Gave(env.past, fn, name, args, r.obj)
    ensures r.obj.None? ==> name in env.past.failed
    ensures r.obj.None? ==>
              Event(fn, name, args, false, false, None) in env.past.seen || Event(fn, name, args, false, true, None) in env.past.seen
    ensures old(env.state).pending ==> env.state.pending
    ensures (fn.NewLocalRef? && old(env.state).pending) ||
            env.past.cause == (old(env.past.cause) || (fn.NewLocalRef? && env.state.pending) ||
                               (fn.GetObjectClass? && name.LoadClassMethod? && r.obj.None?))
    ensures env.state == old(env.state).(pending := env.state.pending,
              locals := old(env.state).locals + Held(r.obj), broken := old(env.state).broken || old(env.state).pending)
  {
    hide After;
    var raw, threw := env.Acquire(fn, name, args);
    Acquired(old(env.state), fn, name, args, threw, raw);
    r := new LocalRef(env, raw);
  }

  /** The destructor, or reset(), of a reference this scope owns. */
  method Drop(env: Env, r: LocalRef)
    requires env.Valid() && r.Owns(env)
    requires r.obj.Some? ==> r.obj.value in env.state.locals
    modifies env, r
    ensures env.Valid() && Steady(old(env.past), env.past) && r.obj.None? && r.env == null
    ensures env.state == old(env.state).(locals := old(env.state).locals - Held(old(r.obj)))
  {
    if r.obj.Some? {
      Release(env.state, r.obj.value);
    }
    r.Reset();
  }

  /** The call itself, and the check after it. */
  method Invoke(env: Env, name: Name, args: seq<Option<Ref>>) returns (r: LocalRef)
    requires env.Valid() && !env.state.pending
    requires forall i :: 0 <= i < |args| ==> Live(env.state, args[i])
    modifies env
    ensures fresh(r) && r.Owns(env) && env.Valid() && Steady(old(env.past), env.past)
    ensures r.obj.Some? ==> New(old(env.state), r.obj.value) && Gave(env.past, CallMethod, name, args, r.obj)
    ensures r.obj.None? ==> name in env.past.failed
    ensures env.state == old(env.state).(locals := old(env.state).locals + Held(r.obj))
  {
    hide Env.Valid, Live;
    r := Obtain(env, CallMethod, name, args);
    var _ := CheckAndClearException(env);
  }

  /** Look the method up and call it; a null class, a missing method or an exception all give null. */
  method CallStaticMethod(env: Env, name: Name, clazz: Option<Ref>) returns (r: LocalRef)
    requires env.Valid() && !env.state.pending && (clazz.Some? ==> Live(env.state, clazz))
    modifies env
    ensures fresh(r) && r.Owns(env) && env.Valid() && Steady(old(env.past), env.past)
    ensures r.obj.Some? ==> New(old(env.state), r.obj.value) && Gave(env.past, CallMethod, name, [clazz], r.obj)
    ensures r.obj.Some? ==> Found(env.past, GetStaticMethodID, name, clazz)
    ensures r.obj.None? && clazz.Some? ==> name in env.past.failed
    ensures env.state == old(env.state).(locals := old(env.state).locals + Held(r.obj))
  {
    hide Env.Valid;
    if clazz.None? {
      r := new LocalRef(env, None);
      return;
    }
    var found, _ := env.Lookup(GetStaticMethodID, name, clazz);
    var threw := CheckAndClearException(env);
    if threw || !found {
      r := new LocalRef(env, None);
      return;
    }
    r := Invoke(env, name, [clazz]);
  }

  /** The method id, looked up in the object's own class, whose reference goes again. */
  method FindMethod(env: Env, name: Name, obj: Option<Ref>) returns (found: bool)
    requires env.Valid() && !env.state.pending && Live(env.state, obj)
    modifies env
    ensures env.Valid() && Later(old(env.past), env.past) && env.state == old(env.state)
    ensures if found then MethodOf(env.past, name, obj) else name in env.past.failed
    ensures !name.LoadClassMethod? ==> env.past.cause == old(env.past.cause)
  {
    hide Env.Valid;
    var clazz := Obtain(env, GetObjectClass, name, [obj]);
    var threw := CheckAndClearException(env);
    if threw || clazz.obj.None? {
      Drop(env, clazz);
      return false;
    }
    var known, _ := env.Lookup(GetMethodID, name, clazz.obj);
    Drop(env, clazz);
    threw := CheckAndClearException(env);
    found := known && !threw;
  }

  method CallInstanceMethod(env: Env, name: Name, obj: Option<Ref>, args: seq<Option<Ref>>) returns (r: LocalRef)
    requires env.Valid() && !env.state.pending && (obj.Some? ==> Live(env.state, obj))
    requires forall i :: 0 <= i < |args| ==> Live(env.state, args[i])
    modifies env
    ensures fresh(r) && r.Owns(env) && env.Valid() && Later(old(env.past), env.past)
    ensures r.obj.Some? ==> obj.Some? && New(old(env.state), r.obj.value) && Gave(env.past, CallMethod, name, [obj] + args, r.obj)
    ensures r.obj.Some? ==> MethodOf(env.past, name, obj)
    ensures r.obj.None? && obj.Some? ==> name in env.past.failed
    ensures !name.LoadClassMethod? ==> env.past.cause == old(env.past.cause)
    ensures env.state == old(env.state).(locals := old(env.state).locals + Held(r.obj))
  {
    hide Env.Valid;
    var found := false;
    if obj.Some? {
      found := FindMethod(env, name, obj);
    }
    if !found {
      r := new LocalRef(env, None);
      return;
    }
    r := Invoke(env, name, [obj] + args);
  }

  // ---------------------------------------------------------------- files_dir.hpp

  datatype FilesDirError = NullArguments | GetFilesDirFailed | GetAbsolutePathFailed | StringConversionFailed

  /** The path text is that of the absolute path of the context's files directory. */
  ghost predicate Resolved(past: Past, context: Option<Ref>, dir: Option<Ref>, path: Option<Ref>) {
    && MethodOf(past, GetFilesDir, context) && Gave(past, CallMethod, GetFilesDir, [context], dir)
    && MethodOf(past, GetAbsolutePath, dir) && Gave(past, CallMethod, GetAbsolutePath, [dir], path)
    && Event(GetStringUTFChars, PathText, [path], true, false, None) in past.seen
  }

  /** Since entry every local reference made was deleted, and each only once. */
  ghost predicate Balanced(env: Env)
    requires env.Valid()
    reads env
  {
    forall r: Ref :: TimesDeleted(env.Since(), r) == TimesMade(env.Since(), r) <= 1
  }

  lemma Settle(env: Env)
    requires env.Valid() && Replay(env.start, env.past.entry).locals == env.state.locals
    ensures !env.state.broken ==> Balanced(env)
  {
    if !env.state.broken {
      forall r: Ref ensures TimesDeleted(env.Since(), r) == TimesMade(env.Since(), r) <= 1 {
        EachDeletedOnce(env, r);
      }
    }
  }

  /**
   * get_files_dir_path(): whatever fails, nothing is left pending, unreleased or undeleted. All it says about
   * calls is about those since entry.
   */
  method GetFilesDirPath(env: Env?, context: Option<Ref>)
    returns (r: Result<(), FilesDirError>, ghost dir: Option<Ref>, ghost path: Option<Ref>)
    requires env != null ==> env.Valid() && !env.state.pending && (context.Some? ==> Live(env.state, context))
    modifies env
    ensures r == Err(NullArguments) <==> env == null || context.None?
    ensures r == Err(GetFilesDirFailed) ==> env != null && GetFilesDir in env.past.failed
    ensures r == Err(GetAbsolutePathFailed) ==> GetAbsolutePath in env.past.failed
    ensures r == Err(StringConversionFailed) ==> PathText in env.past.failed
    ensures r.Ok? ==> Resolved(env.past, context, dir, path)
    ensures env != null ==> env.Valid() && env.state == old(env.state)
    ensures r != Err(NullArguments) ==> env.past.entry == old(env.log)
    ensures r != Err(NullArguments) && !env.state.broken ==> Balanced(env)
  {
    hide Env.Valid;
    dir, path := None, None;
    if env == null || context.None? {
      return Err(NullArguments), dir, path;
    }
    env.Mark();
    var filesDir := CallInstanceMethod(env, GetFilesDir, context, []);
    assert [context] + [] == [context];
    if filesDir.obj.None? {
      Drop(env, filesDir);
      Settle(env);
      return Err(GetFilesDirFailed), dir, path;
    }
    var absolutePath := CallInstanceMethod(env, GetAbsolutePath, filesDir.obj, []);
    dir, path := filesDir.obj, absolutePath.obj;
    assert [dir] + [] == [dir];
    if absolutePath.obj.None? {
      Drop(env, absolutePath);
      Drop(env, filesDir);
      Settle(env);
      return Err(GetAbsolutePathFailed), dir, path;
    }
    var pinned := env.PinChars(absolutePath.obj);
    var threw := CheckAndClearException(env);
    r := Err(StringConversionFailed);
    if !threw && pinned {
      env.ReleaseChars(absolutePath.obj);
      r := Ok(());
    }
    Drop(env, absolutePath);
    Drop(env, filesDir);
    Settle(env);
  }

  // ---------------------------------------------------------------- dex_loader.hpp

  datatype DexLoadError =
    | ActivityThreadClassNotFound | CurrentApplicationNull | ClassLoaderNull | ByteBufferCreationFailed
    | DexClassLoaderConstructionFailed | ClassNotFoundInDex | GlobalRefPromotionFailed

  datatype LoadedDexClass = LoadedDexClass(clazz: Ref, application: Ref)

  /** What a step that keeps `r` has done: one more local reference, nothing else, exceptions aside. */
  ghost predicate Kept(before: Jni, after: Jni, r: Option<Ref>, pending: bool, broken: bool) {
    after == before.(locals := before.locals + Held(r), pending := pending, broken := broken)
  }

  /** The references a load goes through, one per step. */
  datatype Trail = Trail(
    activityThread: Option<Ref>, application: Option<Ref>, parent: Option<Ref>,
    dexLoaderClass: Option<Ref>, dexLoader: Option<Ref>, buffer: Option<Ref>,
    providerName: Option<Ref>, bootClass: Option<Ref>, providerClass: Option<Ref>, provider: Option<Ref>,
    effective: Option<Ref>, className: Option<Ref>, loaded: Option<Ref>)

  const NO_TRAIL := Trail(None, None, None, None, None, None, None, None, None, None, None, None, None)

  const UPGRADE_STEPS: set<Name> := {ProviderName, LoadClassMethod, LoadProvider, Provider, ResourceAwareLoader}

  /** The name is there, and loadClass was looked up in the bootstrap loader's class, if it gave one. */
  ghost predicate CanAsk(past: Past, t: Trail) {
    && Gave(past, NewStringUTF, ProviderName, [], t.providerName)
    && Found(past, GetMethodID, LoadClassMethod, t.bootClass)
    && (t.bootClass.Some? ==> Gave(past, GetObjectClass, LoadClassMethod, [t.dexLoader], t.bootClass))
  }

  /** The bootstrap loader loaded the provider's class by its name. */
  ghost predicate ProviderLoaded(past: Past, t: Trail) {
    CanAsk(past, t) && Gave(past, CallMethod, LoadProvider, [t.dexLoader, t.providerName], t.providerClass)
  }

  /** That class's own constructor built the provider on the application's own loader. */
  ghost predicate ProviderBuilt(past: Past, t: Trail) {
    && ProviderLoaded(past, t) && Found(past, GetMethodID, Provider, t.providerClass)
    && Gave(past, NewObject, Provider, [t.providerClass, t.parent], t.provider)
  }

  /** A second loader over the second buffer, below the provider. */
  ghost predicate Upgraded(past: Past, t: Trail) {
    ProviderBuilt(past, t) && Gave(past, NewObject, ResourceAwareLoader, [t.dexLoaderClass, t.buffer, t.provider], t.effective)
  }

  /** What the upgrade adds to the trail. */
  predicate Extends(t: Trail, t': Trail, effective: Option<Ref>) {
    t' == t.(providerName := t'.providerName, bootClass := t'.bootClass, providerClass := t'.providerClass,
             provider := t'.provider, effective := effective)
  }

  /** A copy of the bootstrap loader, taken because a step of the upgrade failed. */
  ghost predicate FellBack(past: Past, t: Trail) {
    Gave(past, NewLocalRef, BootstrapCopy, [t.dexLoader], t.effective) && past.failed * UPGRADE_STEPS != {}
  }

  /** The effective loader is one of the two, or null because even the copy failed. */
  ghost predicate LoaderFrom(past: Past, t: Trail) {
    if t.effective.Some? then Upgraded(past, t) || FellBack(past, t) else BootstrapCopy in past.failed
  }

  /** The upgrade got as far as asking for the bootstrap loader's class, unless its first step failed. */
  ghost predicate Tried(past: Past) {
    ProviderName in past.failed || exists e :: e in past.seen && e.fn.GetObjectClass? && e.name.LoadClassMethod?
  }

  ghost predicate Effective(past: Past, t: Trail) {
    LoaderFrom(past, t) && Tried(past)
  }

  /** The copy of the bootstrap loader that every early exit of the upgrade returns. */
  method FallBack(env: Env, ghost t: Trail, bootstrap: Option<Ref>) returns (r: LocalRef)
    requires env.Valid() && !env.state.pending && Live(env.state, bootstrap) && t.dexLoader == bootstrap
    requires env.past.failed * UPGRADE_STEPS != {}
    modifies env
    ensures fresh(r) && r.Owns(env) && env.Valid() && Later(old(env.past), env.past)
    ensures r.obj.Some? ==> New(old(env.state), r.obj.value) && !env.state.pending
    ensures Kept(old(env.state), env.state, r.obj, env.state.pending, old(env.state).broken)
    ensures env.past.cause == (old(env.past.cause) || env.state.pending)
    ensures LoaderFrom(env.past, t.(effective := r.obj))
  {
    hide Env.Valid;
    ghost var name :| name in env.past.failed * UPGRADE_STEPS;
    r := Obtain(env, NewLocalRef, BootstrapCopy, [bootstrap]);
    assert name in env.past.failed * UPGRADE_STEPS;
  }

  /** The provider class exists: build it and a second loader below it, or fall back. */
  method LoaderBelowProvider(env: Env, ghost t: Trail, bootstrap: Option<Ref>, dexLoaderClass: Option<Ref>,
                             buffer: Option<Ref>, parent: Option<Ref>, providerClass: Option<Ref>)
      returns (r: LocalRef, ghost t': Trail)
    requires env.Valid() && !env.state.pending
    requires Live(env.state, bootstrap) && Live(env.state, dexLoaderClass) && Live(env.state, buffer)
    requires Live(env.state, parent) && Live(env.state, providerClass)
    requires t.dexLoader == bootstrap && t.dexLoaderClass == dexLoaderClass && t.buffer == buffer && t.parent == parent
    requires t.providerClass == providerClass && ProviderLoaded(env.past, t)
    modifies env
    ensures fresh(r) && r.Owns(env) && env.Valid() && Later(old(env.past), env.past)
    ensures r.obj.Some? ==> New(old(env.state), r.obj.value) && !env.state.pending
    ensures Kept(old(env.state), env.state, r.obj, env.state.pending, old(env.state).broken)
    ensures env.past.cause == (old(env.past.cause) || env.state.pending)
    ensures Extends(t, t', r.obj) && LoaderFrom(env.past, t')
  {
    hide Env.Valid, LoaderFrom, ProviderLoaded;
    var found, _ := env.Lookup(GetMethodID, Provider, providerClass);
    var threw := CheckAndClearException(env);
    if threw || !found {
      FailedUpgrade(env.past, Provider);
      r := FallBack(env, t, bootstrap);
      return r, t.(effective := r.obj);
    }
    ghost var loaded := env.past;
    ProviderStays(old(env.past), loaded, t, t);
    var instance := Obtain(env, NewObject, Provider, [providerClass, parent]);
    t' := t.(provider := instance.obj);
    threw := CheckAndClearException(env);
    if threw || instance.obj.None? {
      FailedUpgrade(env.past, Provider);
      r := FallBack(env, t', bootstrap);
    } else {
      ProviderStays(loaded, env.past, t, t');
      r := SecondLoader(env, t', bootstrap, dexLoaderClass, buffer, instance.obj);
    }
    t' := t'.(effective := r.obj);
    ghost var before := env.past;
    Drop(env, instance);
    LoaderStays(before, env.past, t', t');
  }

  lemma ProviderStays(before: Past, after: Past, t: Trail, t': Trail)
    requires ProviderLoaded(before, t) && Later(before, after) && t' == t.(provider := t'.provider)
    ensures ProviderLoaded(after, t')
  {
  }

  lemma FailedUpgrade(past: Past, name: Name)
    requires name in past.failed && name in UPGRADE_STEPS
    ensures past.failed * UPGRADE_STEPS != {}
  {
    assert name in past.failed * UPGRADE_STEPS;
  }

  lemma FirstStepFailed(past: Past)
    requires ProviderName in past.failed
    ensures Tried(past)
  {
  }

  lemma TriedStays(before: Past, after: Past)
    requires Tried(before) && Later(before, after)
    ensures Tried(after)
  {
  }

  /** The effective loader stays explained by later calls, and whatever is loaded through it. */
  lemma LoaderStays(before: Past, after: Past, t: Trail, t': Trail)
    requires LoaderFrom(before, t) && Later(before, after)
    requires t' == t.(activityThread := t'.activityThread, className := t'.className, loaded := t'.loaded)
    ensures LoaderFrom(after, t')
  {
    if t.effective.Some? && !Upgraded(before, t) {
      var name :| name in before.failed * UPGRADE_STEPS;
      FailedUpgrade(after, name);
    }
  }

  /** The last step of the upgrade. */
  method SecondLoader(env: Env, ghost t: Trail, bootstrap: Option<Ref>, dexLoaderClass: Option<Ref>, buffer: Option<Ref>,
                      provider: Option<Ref>) returns (r: LocalRef)
    requires env.Valid() && !env.state.pending
    requires Live(env.state, bootstrap) && Live(env.state, dexLoaderClass) && Live(env.state, buffer) && Live(env.state, provider)
    requires t.dexLoader == bootstrap && t.dexLoaderClass == dexLoaderClass && t.buffer == buffer && t.provider == provider
    requires ProviderBuilt(env.past, t)
    modifies env
    ensures fresh(r) && r.Owns(env) && env.Valid() && Later(old(env.past), env.past)
    ensures r.obj.Some? ==> New(old(env.state), r.obj.value) && !env.state.pending
    ensures Kept(old(env.state), env.state, r.obj, env.state.pending, old(env.state).broken)
    ensures env.past.cause == (old(env.past.cause) || env.state.pending)
    ensures LoaderFrom(env.past, t.(effective := r.obj))
  {
    hide Env.Valid;
    r := Obtain(env, NewObject, ResourceAwareLoader, [dexLoaderClass, buffer, provider]);
    var threw := CheckAndClearException(env);
    if threw || r.obj.None? {
      FailedUpgrade(env.past, ResourceAwareLoader);
      r := FallBack(env, t, bootstrap);
    }
  }

  /** The method id is known: ask the bootstrap loader for the provider class, quietly. */
  method LoaderByName(env: Env, ghost t: Trail, bootstrap: Option<Ref>, dexLoaderClass: Option<Ref>, buffer: Option<Ref>,
                      parent: Option<Ref>, providerName: Option<Ref>) returns (r: LocalRef, ghost t': Trail)
    requires env.Valid() && !env.state.pending
    requires Live(env.state, bootstrap) && Live(env.state, dexLoaderClass) && Live(env.state, buffer)
    requires Live(env.state, parent) && Live(env.state, providerName)
    requires t.dexLoader == bootstrap && t.dexLoaderClass == dexLoaderClass && t.buffer == buffer && t.parent == parent
    requires t.providerName == providerName && CanAsk(env.past, t)
    modifies env
    ensures fresh(r) && r.Owns(env) && env.Valid() && Later(old(env.past), env.past)
    ensures r.obj.Some? ==> New(old(env.state), r.obj.value) && !env.state.pending
    ensures Kept(old(env.state), env.state, r.obj, env.state.pending, old(env.state).broken)
    ensures env.past.cause == (old(env.past.cause) || env.state.pending)
    ensures Extends(t, t', r.obj) && LoaderFrom(env.past, t')
  {
    hide Env.Valid, LoaderFrom, CanAsk;
    var providerClass := Obtain(env, CallMethod, LoadProvider, [bootstrap, providerName]);
    t' := t.(providerClass := providerClass.obj);
    var threw := env.Check();
    if threw {
      env.Clear();
      FailedUpgrade(env.past, LoadProvider);
      r := FallBack(env, t', bootstrap);
      t' := t'.(effective := r.obj);
    } else if providerClass.obj.None? {
      FailedUpgrade(env.past, LoadProvider);
      r := FallBack(env, t', bootstrap);
      t' := t'.(effective := r.obj);
    } else {
      AskStays(old(env.past), env.past, t, t');
      r, t' := LoaderBelowProvider(env, t', bootstrap, dexLoaderClass, buffer, parent, providerClass.obj);
    }
    ghost var before := env.past;
    Drop(env, providerClass);
    LoaderStays(before, env.past, t', t');
  }

  lemma AskStays(before: Past, after: Past, t: Trail, t': Trail)
    requires CanAsk(before, t) && Later(before, after) && t' == t.(providerClass := t'.providerClass)
    ensures CanAsk(after, t')
  {
  }

  /** loadClass is looked up on whatever GetObjectClass gave, unchecked. */
  method FindLoadClass(env: Env, bootstrap: Option<Ref>)
      returns (found: bool, ghost classless: bool, ghost bootClass: Option<Ref>)
    requires env.Valid() && !env.state.pending && Live(env.state, bootstrap)
    modifies env
    ensures env.Valid() && Later(old(env.past), env.past) && (!found ==> LoadClassMethod in env.past.failed)
    ensures env.state == old(env.state).(broken := old(env.state).broken || classless)
    ensures env.past.cause == (old(env.past.cause) || classless) && Tried(env.past) && classless == bootClass.None?
    ensures found ==> Found(env.past, GetMethodID, LoadClassMethod, bootClass)
    ensures bootClass.Some? ==> Gave(env.past, GetObjectClass, LoadClassMethod, [bootstrap], bootClass)
  {
    hide Env.Valid;
    var loaderClass := Obtain(env, GetObjectClass, LoadClassMethod, [bootstrap]);
    classless, bootClass := loaderClass.obj.None?, loaderClass.obj;
    var known, _ := env.Lookup(GetMethodID, LoadClassMethod, loaderClass.obj);
    Drop(env, loaderClass);
    var threw := CheckAndClearException(env);
    found := known && !threw;
  }

  /**
   * upgrade_to_resource_aware_loader(): the upgraded loader unless a step failed, then a copy of the bootstrap
   * loader, and null only when that copy fails too. The one way it can break a rule is by using the class of
   * the bootstrap loader when GetObjectClass gave none.
   */
  method UpgradeToResourceAwareLoader(env: Env, ghost t: Trail, bootstrap: Option<Ref>, dexLoaderClass: Option<Ref>,
                                      buffer: Option<Ref>, parent: Option<Ref>)
      returns (r: LocalRef, ghost t': Trail, ghost classless: bool)
    requires env.Valid() && !env.state.pending
    requires Live(env.state, bootstrap) && Live(env.state, dexLoaderClass) && Live(env.state, buffer) && Live(env.state, parent)
    requires t.dexLoader == bootstrap && t.dexLoaderClass == dexLoaderClass && t.buffer == buffer && t.parent == parent
    modifies env
    ensures fresh(r) && r.Owns(env) && env.Valid() && Later(old(env.past), env.past)
    ensures r.obj.Some? ==> New(old(env.state), r.obj.value) && !env.state.pending
    ensures Kept(old(env.state), env.state, r.obj, env.state.pending, old(env.state).broken || classless)
    ensures env.past.cause == (old(env.past.cause) || classless || env.state.pending)
    ensures Extends(t, t', r.obj) && Effective(env.past, t')
  {
    hide Env.Valid, LoaderFrom, Tried;
    classless := false;
    var providerName := Obtain(env, NewStringUTF, ProviderName, []);
    var threw := CheckAndClearException(env);
    ghost var tried := env.past;
    if threw || providerName.obj.None? {
      assert Tried(tried) by { FirstStepFailed(tried); }
      FailedUpgrade(env.past, ProviderName);
      r := FallBack(env, t, bootstrap);
      t' := t.(effective := r.obj);
    } else {
      var found;
      ghost var bootClass;
      found, classless, bootClass := FindLoadClass(env, bootstrap);
      tried := env.past;
      t' := t.(providerName := providerName.obj, bootClass := bootClass);
      if !found {
        FailedUpgrade(env.past, LoadClassMethod);
        r := FallBack(env, t', bootstrap);
        t' := t'.(effective := r.obj);
      } else {
        r, t' := LoaderByName(env, t', bootstrap, dexLoaderClass, buffer, parent, providerName.obj);
      }
    }
    ghost var before := env.past;
    Drop(env, providerName);
    LoaderStays(before, env.past, t', t');
    TriedStays(tried, env.past);
  }

  /** Promotes both results, or neither: a failed pair is reset again. */
  method PromoteBoth(env: Env, loaded: Option<Ref>, application: Option<Ref>)
      returns (r: Result<LoadedDexClass, DexLoadError>, ghost firstThrew: bool)
    requires env.Valid() && !env.state.pending && Live(env.state, loaded) && Live(env.state, application)
    modifies env
    ensures env.Valid() && Later(old(env.past), env.past)
    ensures r.Err? ==> env.state == old(env.state).(broken := old(env.state).broken || firstThrew)
    ensures r.Err? ==> r.error == GlobalRefPromotionFailed && Blamed(env.past, r.error)
    ensures r.Ok? ==> Promoted(old(env.state), env.state, r.value) && !firstThrew
    ensures r.Ok? ==> Gave(env.past, NewGlobalRef, ClassGlobal, [loaded], Some(r.value.clazz)) &&
                      Gave(env.past, NewGlobalRef, ApplicationGlobal, [application], Some(r.value.application))
    ensures env.past.cause == (old(env.past.cause) || firstThrew)
  {
    hide Env.Valid;
    var clazz := new GlobalRef();
    var app := new GlobalRef();
    firstThrew := clazz.PromoteFrom(env, ClassGlobal, loaded);
    var _ := app.PromoteFrom(env, ApplicationGlobal, application);
    if clazz.obj.None? || app.obj.None? {
      var _ := CheckAndClearException(env);
      clazz.Reset(env);
      app.Reset(env);
      return Err(GlobalRefPromotionFailed), firstThrew;
    }
    r := Ok(LoadedDexClass(clazz.obj.value, app.obj.value));
  }

  /** Exactly two new global references and nothing else. */
  ghost predicate Promoted(before: Jni, after: Jni, c: LoadedDexClass) {
    && after == before.(globals := before.globals + {c.clazz, c.application})
    && New(before, c.clazz) && New(before, c.application) && c.clazz != c.application
  }

  /** What the loader guarantees from any state: balanced references, and broken rules only by `breach`. */
  ghost predicate Settled(before: Jni, after: Jni, r: Result<LoadedDexClass, DexLoadError>, breach: bool) {
    match r
    case Err(_) => after == before.(broken := before.broken || breach)
    case Ok(c) => Promoted(before.(broken := before.broken || breach), after, c)
  }

  /** An error names a step that failed. */
  ghost predicate Blamed(past: Past, error: DexLoadError) {
    match error
    case ActivityThreadClassNotFound => ActivityThread in past.failed
    case CurrentApplicationNull => CurrentApplication in past.failed
    case ClassLoaderNull => GetClassLoader in past.failed
    case ByteBufferCreationFailed => DexBytes in past.failed || DexBytesForUpgrade in past.failed
    case DexClassLoaderConstructionFailed => InMemoryDexClassLoader in past.failed
    case ClassNotFoundInDex => ClassName in past.failed || LoadClass in past.failed || BootstrapCopy in past.failed
    case GlobalRefPromotionFailed => ClassGlobal in past.failed || ApplicationGlobal in past.failed
  }

  /** The two results are globals of the class the effective loader loaded by name, and of the application. */
  ghost predicate LoadedBy(past: Past, t: Trail, c: LoadedDexClass) {
    && Gave(past, NewStringUTF, ClassName, [], t.className)
    && MethodOf(past, LoadClass, t.effective) && Gave(past, CallMethod, LoadClass, [t.effective, t.className], t.loaded)
    && Gave(past, NewGlobalRef, ClassGlobal, [t.loaded], Some(c.clazz))
    && Gave(past, NewGlobalRef, ApplicationGlobal, [t.application], Some(c.application))
  }

  /** The loader below the application's own loader, over the embedded bytes. */
  ghost predicate LoaderBuilt(past: Past, t: Trail) {
    && Gave(past, FindClass, InMemoryDexClassLoader, [], t.dexLoaderClass)
    && Found(past, GetMethodID, InMemoryDexClassLoader, t.dexLoaderClass)
    && (exists buffer :: Gave(past, NewDirectByteBuffer, DexBytes, [], buffer) &&
                         Gave(past, NewObject, InMemoryDexClassLoader, [t.dexLoaderClass, buffer, t.parent], t.dexLoader))
    && Gave(past, NewDirectByteBuffer, DexBytesForUpgrade, [], t.buffer)
  }

  ghost predicate ApplicationFound(past: Past, t: Trail) {
    && Gave(past, FindClass, ActivityThread, [], t.activityThread)
    && Found(past, GetStaticMethodID, CurrentApplication, t.activityThread)
    && Gave(past, CallMethod, CurrentApplication, [t.activityThread], t.application)
    && MethodOf(past, GetClassLoader, t.application) && Gave(past, CallMethod, GetClassLoader, [t.application], t.parent)
  }

  /** Where the result came from, or which failure an error reports. */
  ghost predicate Explained(past: Past, t: Trail, r: Result<LoadedDexClass, DexLoadError>) {
    match r
    case Err(error) => Blamed(past, error)
    case Ok(c) => ApplicationFound(past, t) && LoaderBuilt(past, t) && Effective(past, t) && LoadedBy(past, t, c)
  }

  /** Step 4: load the class by name through the effective loader and promote both results. */
  method LoadNamedClass(env: Env, ghost t: Trail, application: Option<Ref>, loader: Option<Ref>)
      returns (r: Result<LoadedDexClass, DexLoadError>, ghost firstThrew: bool, ghost t': Trail)
    requires env.Valid() && Live(env.state, application) && (loader.Some? ==> Live(env.state, loader) && !env.state.pending)
    requires t.application == application && t.effective == loader && (loader.None? ==> BootstrapCopy in env.past.failed)
    modifies env
    ensures env.Valid() && Later(old(env.past), env.past)
    ensures Settled(old(env.state).(pending := false), env.state, r, old(env.state).pending || firstThrew)
    ensures env.past.cause == (old(env.past.cause) || firstThrew)
    ensures t' == t.(className := t'.className, loaded := t'.loaded)
    ensures if r.Ok? then LoadedBy(env.past, t', r.value) else Blamed(env.past, r.error)
  {
    hide Env.Valid;
    firstThrew, t' := false, t;
    var className := Obtain(env, NewStringUTF, ClassName, []);
    var threw := CheckAndClearException(env);
    if threw || className.obj.None? {
      Drop(env, className);
      return Err(ClassNotFoundInDex), firstThrew, t';
    }
    var loaded := CallInstanceMethod(env, LoadClass, loader, [className.obj]);
    assert [loader] + [className.obj] == [loader, className.obj];
    t' := t.(className := className.obj, loaded := loaded.obj);
    r := Err(ClassNotFoundInDex);
    if loaded.obj.Some? {
      r, firstThrew := PromoteBoth(env, loaded.obj, application);
    }
    Drop(env, loaded);
    Drop(env, className);
  }

  /** Step 3.5 on: a second buffer, the effective loader, and the class. */
  method LoadThrough(env: Env, ghost t: Trail, application: Option<Ref>, parent: Option<Ref>, dexLoaderClass: Option<Ref>,
                     dexLoader: Option<Ref>)
      returns (r: Result<LoadedDexClass, DexLoadError>, ghost breach: bool, ghost t': Trail)
    requires env.Valid() && !env.state.pending && Live(env.state, application) && Live(env.state, parent)
    requires Live(env.state, dexLoaderClass) && Live(env.state, dexLoader)
    requires t.application == application && t.parent == parent && t.dexLoaderClass == dexLoaderClass && t.dexLoader == dexLoader
    modifies env
    ensures env.Valid() && Later(old(env.past), env.past)
    ensures Settled(old(env.state), env.state, r, breach) && env.past.cause == (old(env.past.cause) || breach)
    ensures t' == Trail(t.activityThread, application, parent, dexLoaderClass, dexLoader, t'.buffer, t'.providerName,
                        t'.bootClass, t'.providerClass, t'.provider, t'.effective, t'.className, t'.loaded)
    ensures if r.Ok? then Gave(env.past, NewDirectByteBuffer, DexBytesForUpgrade, [], t'.buffer) &&
                          Effective(env.past, t') && LoadedBy(env.past, t', r.value)
            else Blamed(env.past, r.error)
  {
    hide Env.Valid, Effective, LoadedBy, Blamed, Settled;
    breach, t' := false, t;
    var buffer := Obtain(env, NewDirectByteBuffer, DexBytesForUpgrade, []);
    var threw := CheckAndClearException(env);
    if threw || buffer.obj.None? {
      Drop(env, buffer);
      NoBuffer(old(env.state), env.state, env.past);
      return Err(ByteBufferCreationFailed), breach, t';
    }
    r, breach, t' := LoadEffective(env, t.(buffer := buffer.obj), application, parent, dexLoaderClass, dexLoader, buffer.obj);
    ghost var before, mid, held := env.past, env.state, buffer.obj;
    SettledLocals(old(env.state).(locals := old(env.state).locals + {held.value}), mid, r, breach);
    Drop(env, buffer);
    LoadStays(before, env.past, t', r);
    BufferDropped(old(env.state), mid, env.state, held, r, breach);
  }

  lemma NoBuffer(before: Jni, after: Jni, past: Past)
    requires after == before && DexBytesForUpgrade in past.failed
    ensures Settled(before, after, Err(ByteBufferCreationFailed), false) && Blamed(past, ByteBufferCreationFailed)
  {
  }

  /** What a load has established survives later calls. */
  lemma LoadStays(before: Past, after: Past, t: Trail, r: Result<LoadedDexClass, DexLoadError>)
    requires Later(before, after)
    requires if r.Ok? then Effective(before, t) && LoadedBy(before, t, r.value) else Blamed(before, r.error)
    ensures if r.Ok? then Effective(after, t) && LoadedBy(after, t, r.value) else Blamed(after, r.error)
  {
    hide Effective;
    if r.Ok? {
      EffectiveStays(before, after, t, t);
    }
  }

  lemma EffectiveStays(before: Past, after: Past, t: Trail, t': Trail)
    requires Effective(before, t) && Later(before, after)
    requires t' == t.(activityThread := t'.activityThread, className := t'.className, loaded := t'.loaded)
    ensures Effective(after, t')
  {
    hide LoaderFrom, Tried;
    LoaderStays(before, after, t, t');
    TriedStays(before, after);
  }

  lemma NullIsFailed(past: Past, t: Trail)
    requires Effective(past, t)
    ensures t.effective.None? ==> BootstrapCopy in past.failed
  {
  }

  lemma SettledLocals(before: Jni, after: Jni, r: Result<LoadedDexClass, DexLoadError>, breach: bool)
    requires Settled(before, after, r, breach)
    ensures after.locals == before.locals
  {
  }

  lemma BufferDropped(before: Jni, mid: Jni, after: Jni, buffer: Option<Ref>, r: Result<LoadedDexClass, DexLoadError>, breach: bool)
    requires buffer.Some? && New(before, buffer.value)
    requires Settled(before.(locals := before.locals + {buffer.value}), mid, r, breach)
    requires after == mid.(locals := mid.locals - {buffer.value})
    ensures Settled(before, after, r, breach)
  {
    assert before.locals + {buffer.value} - {buffer.value} == before.locals;
  }

  /** The upgrade and the load through whatever it gave. */
  method LoadEffective(env: Env, ghost t: Trail, application: Option<Ref>, parent: Option<Ref>, dexLoaderClass: Option<Ref>,
                       dexLoader: Option<Ref>, buffer: Option<Ref>)
      returns (r: Result<LoadedDexClass, DexLoadError>, ghost breach: bool, ghost t': Trail)
    requires env.Valid() && !env.state.pending && Live(env.state, application) && Live(env.state, parent)
    requires Live(env.state, dexLoaderClass) && Live(env.state, dexLoader) && Live(env.state, buffer)
    requires t.application == application && t.parent == parent && t.dexLoaderClass == dexLoaderClass
    requires t.dexLoader == dexLoader && t.buffer == buffer
    modifies env
    ensures env.Valid() && Later(old(env.past), env.past)
    ensures Settled(old(env.state), env.state, r, breach) && env.past.cause == (old(env.past.cause) || breach)
    ensures Extends(t.(className := t'.className, loaded := t'.loaded), t', t'.effective)
    ensures if r.Ok? then Effective(env.past, t') && LoadedBy(env.past, t', r.value) else Blamed(env.past, r.error)
  {
    hide Env.Valid, LoadedBy, Blamed, Effective;
    var effective, t1, classless := UpgradeToResourceAwareLoader(env, t, dexLoader, dexLoaderClass, buffer, parent);
    ghost var upgraded := env.past;
    NullIsFailed(upgraded, t1);
    breach := classless || env.state.pending;
    ghost var firstThrew;
    r, firstThrew, t' := LoadNamedClass(env, t1, application, effective.obj);
    EffectiveStays(upgraded, env.past, t1, t');
    breach := breach || firstThrew;
    ghost var loaded := env.past;
    Drop(env, effective);
    LoadStays(loaded, env.past, t', r);
  }

  /** Step 3: the direct buffer, the class loader's class and constructor, and the first loader. */
  method LoadFromBuffer(env: Env, ghost t: Trail, application: Option<Ref>, parent: Option<Ref>)
      returns (r: Result<LoadedDexClass, DexLoadError>, ghost breach: bool, ghost t': Trail)
    requires env.Valid() && !env.state.pending && Live(env.state, application) && Live(env.state, parent)
    requires t.application == application && t.parent == parent
    modifies env
    ensures env.Valid() && Later(old(env.past), env.past)
    ensures Settled(old(env.state), env.state, r, breach) && env.past.cause == (old(env.past.cause) || breach)
    ensures t'.activityThread == t.activityThread && t'.application == application && t'.parent == parent
    ensures if r.Ok? then LoaderBuilt(env.past, t') && Effective(env.past, t') && LoadedBy(env.past, t', r.value)
            else Blamed(env.past, r.error)
  {
    hide Env.Valid, Effective, LoadedBy, LoaderBuilt;
    breach, t' := false, t;
    var buffer := Obtain(env, NewDirectByteBuffer, DexBytes, []);
    var threw := CheckAndClearException(env);
    r := Err(ByteBufferCreationFailed);
    if !threw && buffer.obj.Some? {
      r, breach, t' := LoadWithClass(env, t, application, parent, buffer.obj);
    }
    ghost var before := env.past;
    Drop(env, buffer);
    BuiltStays(before, env.past, t', r);
  }

  method LoadWithClass(env: Env, ghost t: Trail, application: Option<Ref>, parent: Option<Ref>, buffer: Option<Ref>)
      returns (r: Result<LoadedDexClass, DexLoadError>, ghost breach: bool, ghost t': Trail)
    requires env.Valid() && !env.state.pending
    requires Live(env.state, application) && Live(env.state, parent) && Live(env.state, buffer)
    requires t.application == application && t.parent == parent && Gave(env.past, NewDirectByteBuffer, DexBytes, [], buffer)
    modifies env
    ensures env.Valid() && Later(old(env.past), env.past)
    ensures Settled(old(env.state), env.state, r, breach) && env.past.cause == (old(env.past.cause) || breach)
    ensures t'.activityThread == t.activityThread && t'.application == application && t'.parent == parent
    ensures if r.Ok? then LoaderBuilt(env.past, t') && Effective(env.past, t') && LoadedBy(env.past, t', r.value)
            else Blamed(env.past, r.error)
  {
    hide Env.Valid, Effective, LoadedBy, LoaderBuilt;
    breach, t' := false, t;
    var loaderClass := Obtain(env, FindClass, InMemoryDexClassLoader, []);
    var threw := CheckAndClearException(env);
    r := Err(DexClassLoaderConstructionFailed);
    if !threw && loaderClass.obj.Some? {
      var found, _ := env.Lookup(GetMethodID, InMemoryDexClassLoader, loaderClass.obj);
      threw := CheckAndClearException(env);
      if !threw && found {
        r, breach, t' := ConstructAndLoad(env, t.(dexLoaderClass := loaderClass.obj), application, parent, loaderClass.obj, buffer);
      }
    }
    ghost var before := env.past;
    Drop(env, loaderClass);
    BuiltStays(before, env.past, t', r);
  }

  lemma BuiltStays(before: Past, after: Past, t: Trail, r: Result<LoadedDexClass, DexLoadError>)
    requires Later(before, after)
    requires if r.Ok? then LoaderBuilt(before, t) && Effective(before, t) && LoadedBy(before, t, r.value) else Blamed(before, r.error)
    ensures if r.Ok? then LoaderBuilt(after, t) && Effective(after, t) && LoadedBy(after, t, r.value) else Blamed(after, r.error)
  {
    hide Effective, LoadedBy, Blamed;
    LoadStays(before, after, t, r);
    if r.Ok? {
      var buffer :| Gave(before, NewDirectByteBuffer, DexBytes, [], buffer) &&
                    Gave(before, NewObject, InMemoryDexClassLoader, [t.dexLoaderClass, buffer, t.parent], t.dexLoader);
      assert Gave(after, NewDirectByteBuffer, DexBytes, [], buffer);
    }
  }

  method ConstructAndLoad(env: Env, ghost t: Trail, application: Option<Ref>, parent: Option<Ref>, loaderClass: Option<Ref>,
                          buffer: Option<Ref>)
      returns (r: Result<LoadedDexClass, DexLoadError>, ghost breach: bool, ghost t': Trail)
    requires env.Valid() && !env.state.pending && Live(env.state, application) && Live(env.state, parent)
    requires Live(env.state, loaderClass) && Live(env.state, buffer)
    requires t.application == application && t.parent == parent && t.dexLoaderClass == loaderClass
    requires Gave(env.past, FindClass, InMemoryDexClassLoader, [], loaderClass)
    requires Found(env.past, GetMethodID, InMemoryDexClassLoader, loaderClass)
    requires Gave(env.past, NewDirectByteBuffer, DexBytes, [], buffer)
    modifies env
    ensures env.Valid() && Later(old(env.past), env.past)
    ensures Settled(old(env.state), env.state, r, breach) && env.past.cause == (old(env.past.cause) || breach)
    ensures t'.activityThread == t.activityThread && t'.application == application && t'.parent == parent
    ensures if r.Ok? then LoaderBuilt(env.past, t') && Effective(env.past, t') && LoadedBy(env.past, t', r.value)
            else Blamed(env.past, r.error)
  {
    hide Env.Valid, Effective, LoadedBy;
    breach, t' := false, t;
    var dexLoader := Obtain(env, NewObject, InMemoryDexClassLoader, [loaderClass, buffer, parent]);
    var threw := CheckAndClearException(env);
    r := Err(DexClassLoaderConstructionFailed);
    if !threw && dexLoader.obj.Some? {
      r, breach, t' := LoadThrough(env, t.(dexLoader := dexLoader.obj), application, parent, loaderClass, dexLoader.obj);
      if r.Ok? {
        assert Gave(env.past, NewDirectByteBuffer, DexBytes, [], buffer);
        assert Gave(env.past, NewObject, InMemoryDexClassLoader, [t'.dexLoaderClass, buffer, t'.parent], t'.dexLoader);
      }
    }
    ghost var before := env.past;
    Drop(env, dexLoader);
    BuiltStays(before, env.past, t', r);
  }

  /** Step 2 on: the application's own loader, which becomes the parent. */
  method LoadFor(env: Env, ghost t: Trail, application: Option<Ref>)
      returns (r: Result<LoadedDexClass, DexLoadError>, ghost breach: bool, ghost t': Trail)
    requires env.Valid() && !env.state.pending && Live(env.state, application) && t.application == application
    modifies env
    ensures env.Valid() && Later(old(env.past), env.past)
    ensures Settled(old(env.state), env.state, r, breach) && env.past.cause == (old(env.past.cause) || breach)
    ensures t'.activityThread == t.activityThread && t'.application == application
    ensures if r.Ok? then MethodOf(env.past, GetClassLoader, application) &&
                          Gave(env.past, CallMethod, GetClassLoader, [application], t'.parent) &&
                          LoaderBuilt(env.past, t') && Effective(env.past, t') && LoadedBy(env.past, t', r.value)
            else Blamed(env.past, r.error)
  {
    hide Env.Valid, Effective, LoadedBy, LoaderBuilt;
    breach, t' := false, t;
    var parent := CallInstanceMethod(env, GetClassLoader, application, []);
    assert [application] + [] == [application];
    r := Err(ClassLoaderNull);
    if parent.obj.Some? {
      r, breach, t' := LoadFromBuffer(env, t.(parent := parent.obj), application, parent.obj);
    }
    ghost var before := env.past;
    Drop(env, parent);
    BuiltStays(before, env.past, t', r);
  }

  /**
   * load_class_from_dex(): for every behaviour of the environment it ends with no exception pending, every
   * local reference it made deleted again, and two new global references on success or none on error. On
   * success they are those of the class loaded by name and of the application; an error names a step that
   * failed. It breaks a rule if and only if one of its own calls was a cause. All it says about calls is about
   * those since entry.
   */
  method LoadClassFromDex(env: Env) returns (r: Result<LoadedDexClass, DexLoadError>, ghost t: Trail)
    requires env.Valid() && !env.state.pending
    modifies env
    ensures env.Valid() && env.past.entry == old(env.log)
    ensures Settled(old(env.state), env.state, r, env.past.cause)
    ensures env.past.cause <==> exists e :: e in env.Since() && IsCause(e)
    ensures Explained(env.past, t, r)
    ensures !env.state.broken ==> Balanced(env)
  {
    hide Env.Valid, Effective, LoadedBy, LoaderBuilt, Balanced, Explained;
    env.Mark();
    r, t := FindAndLoad(env);
    SettledLocals(old(env.state), env.state, r, env.past.cause);
    Settle(env);
    PastMeans(env);
  }

  /** The same, looking back from wherever its caller does. */
  method FindAndLoad(env: Env) returns (r: Result<LoadedDexClass, DexLoadError>, ghost t: Trail)
    requires env.Valid() && !env.state.pending && !env.past.cause
    modifies env
    ensures env.Valid() && Later(old(env.past), env.past)
    ensures Settled(old(env.state), env.state, r, env.past.cause)
    ensures Explained(env.past, t, r)
  {
    hide Env.Valid, Effective, LoadedBy, LoaderBuilt;
    t := NO_TRAIL;
    ghost var breach := false;
    var activityThread := Obtain(env, FindClass, ActivityThread, []);
    var threw := CheckAndClearException(env);
    if threw || activityThread.obj.None? {
      Drop(env, activityThread);
      return Err(ActivityThreadClassNotFound), t;
    }
    var application := CallStaticMethod(env, CurrentApplication, activityThread.obj);
    r := Err(CurrentApplicationNull);
    if application.obj.Some? {
      r, breach, t := LoadFor(env, t.(activityThread := activityThread.obj, application := application.obj), application.obj);
    }
    ghost var before := env.past;
    Drop(env, application);
    Drop(env, activityThread);
    BuiltStays(before, env.past, t, r);
  }
}
