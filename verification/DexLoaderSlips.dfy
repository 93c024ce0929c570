/**
 * The three failures under which the dex loader breaks a rule of the interface do occur: for each there is an
 * environment in which loading ends with a rule broken.
 */
module DexLoaderSlips {
  import opened Common
  import opened JniEnv
  import opened DexLoader

  datatype Slip = NoClassInUpgrade | CopyThrows | FirstPromotionThrows

  /** Everything succeeds but the one call, and for the copy the step that makes the upgrade fall back on it. */
  function FateOf(slip: Slip): (nat, Fn, Name) -> Fate {
    (i: nat, fn: Fn, name: Name) =>
      match slip
      case NoClassInUpgrade => if fn.GetObjectClass? && name.LoadClassMethod? then Nulls else Gives
      case CopyThrows =>
        if fn.NewLocalRef? && name.BootstrapCopy? then Throws
        else if fn.NewObject? && name.ResourceAwareLoader? then Nulls else Gives
      case FirstPromotionThrows => if fn.NewGlobalRef? && name.ClassGlobal? then Throws else Gives
  }

  /** Every event since entry met the fate its function and name have. */
  lemma EventMeets(env: Env, slip: Slip, e: Event)
    requires env.Valid() && env.fate == FateOf(slip) && e in env.past.seen
    ensures Meets(e, FateOf(slip)(0, e.fn, e.name)) && e in env.Since()
  {
    PastMeans(env);
    var since := env.Since();
    var i :| 0 <= i < |since| && since[i] == e;
    var k: nat := |env.past.entry| + i;
    assert env.log[k] == e;
    assert Meets(env.log[k], env.fate(k, e.fn, e.name));
  }

  /** A failed call with this name is the slip itself, or the step that makes way for it. */
  lemma FailureIsSlip(env: Env, slip: Slip, name: Name) returns (e: Event)
    requires env.Valid() && env.fate == FateOf(slip) && name in env.past.failed
    ensures e in env.past.seen && e.name == name && !e.ok && CanFail(e.fn) && FateOf(slip)(0, e.fn, name) != Gives
    ensures e.threw == FateOf(slip)(0, e.fn, name).Throws?
  {
    PastMeans(env);
    e :| e in env.Since() && e.name == name && !e.ok;
    EventMeets(env, slip, e);
  }

  /** Something that was given did not meet a failure. */
  lemma GivenMeetsGives(env: Env, slip: Slip, fn: Fn, name: Name, args: seq<Option<Ref>>, r: Option<Ref>)
    requires env.Valid() && env.fate == FateOf(slip) && Gave(env.past, fn, name, args, r) && CanFail(fn)
    ensures FateOf(slip)(0, fn, name) == Gives
  {
    EventMeets(env, slip, Event(fn, name, args, true, false, r));
  }

  /** An event since entry that is a failed call of a function with a cause among its failures. */
  lemma CauseSeen(env: Env, e: Event)
    requires env.Valid() && e in env.past.seen && IsCause(e)
    ensures env.past.cause
  {
    PastMeans(env);
  }

  lemma FailureIsCause(env: Env, slip: Slip, name: Name)
    requires env.Valid() && env.fate == FateOf(slip) && name in env.past.failed
    requires name != LoadClassMethod && name != ResourceAwareLoader
    ensures env.past.cause
  {
    var e := FailureIsSlip(env, slip, name);
    CauseSeen(env, e);
  }

  lemma ErrorIsCause(env: Env, slip: Slip, error: DexLoadError)
    requires env.Valid() && env.fate == FateOf(slip) && Blamed(env.past, error)
    ensures env.past.cause
  {
    hide FateOf, IsCause;
    var name := BlamedName(env.past, error);
    FailureIsCause(env, slip, name);
  }

  lemma UnloadedIsReached(env: Env, t: Trail)
    requires env.Valid() && env.fate == FateOf(NoClassInUpgrade) && Tried(env.past)
    ensures env.past.cause
  {
    hide Env.Valid;
    if ProviderName in env.past.failed {
      FailureIsCause(env, NoClassInUpgrade, ProviderName);
    } else {
      var e :| e in env.past.seen && e.fn.GetObjectClass? && e.name.LoadClassMethod?;
      EventMeets(env, NoClassInUpgrade, e);
      SinceSensible(env, e);
      CauseSeen(env, e);
    }
  }

  lemma SinceSensible(env: Env, e: Event)
    requires env.Valid() && e in env.Since()
    ensures Sensible(e)
  {
    var since := env.Since();
    var i :| 0 <= i < |since| && since[i] == e;
    assert env.log[|env.past.entry| + i] == e;
  }

  lemma CopyIsReached(env: Env, t: Trail)
    requires env.Valid() && env.fate == FateOf(CopyThrows) && LoaderFrom(env.past, t)
    ensures env.past.cause
  {
    hide Env.Valid;
    if t.effective.None? {
      FailureIsCause(env, CopyThrows, BootstrapCopy);
    } else if Upgraded(env.past, t) {
      GivenMeetsGives(env, CopyThrows, NewObject, ResourceAwareLoader, [t.dexLoaderClass, t.buffer, t.provider], t.effective);
    } else {
      GivenMeetsGives(env, CopyThrows, NewLocalRef, BootstrapCopy, [t.dexLoader], t.effective);
    }
  }

  lemma SlipIsReached(env: Env, slip: Slip, t: Trail, r: Result<LoadedDexClass, DexLoadError>)
    requires env.Valid() && env.fate == FateOf(slip) && Explained(env.past, t, r)
    ensures env.past.cause
  {
    hide Env.Valid, Blamed, LoaderFrom, Tried, FateOf, Gave;
    if r.Err? {
      ErrorIsCause(env, slip, r.error);
    } else {
      match slip
      case NoClassInUpgrade => UnloadedIsReached(env, t);
      case CopyThrows => CopyIsReached(env, t);
      case FirstPromotionThrows => NotLoaded(env, t, r.value);
    }
  }

  lemma NotLoaded(env: Env, t: Trail, c: LoadedDexClass)
    requires env.Valid() && env.fate == FateOf(FirstPromotionThrows)
    ensures !LoadedBy(env.past, t, c)
  {
    if LoadedBy(env.past, t, c) {
      GivenMeetsGives(env, FirstPromotionThrows, NewGlobalRef, ClassGlobal, [t.loaded], Some(c.clazz));
    }
  }

  lemma BlamedName(past: Past, error: DexLoadError) returns (name: Name)
    requires Blamed(past, error)
    ensures name in past.failed && name != LoadClassMethod && name != ResourceAwareLoader
  {
    match error
    case ActivityThreadClassNotFound => name := ActivityThread;
    case CurrentApplicationNull => name := CurrentApplication;
    case ClassLoaderNull => name := GetClassLoader;
    case ByteBufferCreationFailed => name := if DexBytes in past.failed then DexBytes else DexBytesForUpgrade;
    case DexClassLoaderConstructionFailed => name := InMemoryDexClassLoader;
    case ClassNotFoundInDex =>
      name := if ClassName in past.failed then ClassName else if LoadClass in past.failed then LoadClass else BootstrapCopy;
    case GlobalRefPromotionFailed => name := if ClassGlobal in past.failed then ClassGlobal else ApplicationGlobal;
  }

  /** Loading in an environment with one of the three slips always ends with a rule broken. */
  method LoadWithSlip(slip: Slip) returns (env: Env)
    ensures fresh(env) && env.Valid() && env.state.broken
  {
    env := new Env({}, {}, 0, FateOf(slip));
    var r, t := LoadClassFromDex(env);
    SlipIsReached(env, slip, t, r);
  }
}
