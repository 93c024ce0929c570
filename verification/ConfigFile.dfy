/**
 * AppConfig and the file-backed JSON source behind it: provisioning, loading, and mtime-driven reloading
 * through a copy, with what the file system answers given as parameters.
 */
module ConfigFile {
  import opened Common
  import opened JsonText
  import opened MetaJson
  import opened JsonRoundTrip
  import opened AppState

  /** The default value of a file time; no file carries it. */
  const EPOCH: nat := 0

  const APP_CONFIG: seq<Field> :=
    [Field(Some("tick_log_interval"), IntKind), Field(Some("snapshot_interval_ticks"), IntKind)]

  datatype LoadOutcome = ProvisionedNewFile | LoadedExistingFile | ProvisionFailed | ParseFailed | LoadRaised

  datatype PollOutcome = Unchanged | Reloaded | Failed | PollRaised

  function ValuesOf(c: Config): seq<Value> {
    [IntValue(c.log), IntValue(c.snap)]
  }

  function Setting(v: Value): int {
    if v.IntValue? then v.n else 0
  }

  function ConfigOf(values: seq<Value>): Config
    requires |values| == 2
  {
    Config(Setting(values[0]), Setting(values[1]))
  }

  /** Reading the file into a copy, which is assigned only if the whole text was accepted. */
  function ParsedInto(meta: Meta, values: seq<Value>, read: Option<string>): (r: (Status, seq<Value>))
    requires meta.Some? ==> |values| == |meta.value|
    ensures |r.1| == |values|
  {
    if read.None? then (Rejected, values)
    else
      var (status, candidate) := FromJson(meta, values, read.value);
      (status, if status == Accepted then candidate else values)
  }

  /** std::max on both fields. */
  method ClampToValid(config: Instance)
    requires |config.values| == 2 && config.values[0].IntValue? && config.values[1].IntValue?
    modifies config
    ensures config.values == ValuesOf(Clamp(ConfigOf(old(config.values))))
    ensures var log, snap := old(config.values)[0].n, old(config.values)[1].n;
            config.values == [IntValue(if log >= 10 then log else 10), IntValue(if snap >= 60 then snap else 60)]
  {
    if config.values[0].n < MIN_TICK_LOG_INTERVAL {
      config.values := config.values[0 := IntValue(MIN_TICK_LOG_INTERVAL)];
    }
    if config.values[1].n < MIN_SNAPSHOT_INTERVAL_TICKS {
      config.values := config.values[1 := IntValue(MIN_SNAPSHOT_INTERVAL_TICKS)];
    }
  }

  class JsonConfigFile {
    const meta: Meta
    var lastSeen: nat

    constructor (meta: Meta)
      ensures this.meta == meta && lastSeen == EPOCH
    {
      this.meta := meta;
      lastSeen := EPOCH;
    }

    method ParseFileInto(instance: Instance, read: Option<string>) returns (status: Status)
      requires meta.Some? ==> |instance.values| == |meta.value|
      modifies instance
      ensures (status, instance.values) == ParsedInto(meta, old(instance.values), read)
    {
      if read.None? {
        return Rejected;
      }
      var candidate := new Instance(instance.values);
      status := MetaComponentFromJson(meta, candidate, read.value);
      if status == Accepted {
        instance.values := candidate.values;
      }
    }

    method RecordMtime(stat: Option<nat>)
      modifies this
      ensures lastSeen == if stat.Some? then stat.value else old(lastSeen)
    {
      if stat.Some? {
        lastSeen := stat.value;
      }
    }

    /**
     * `present` is what the existence check answered, if it did not fail; `written` whether the new file could
     * be written; `stat` and `read` what the later calls saw. `json` is the text the new file was given.
     */
    method LoadOrProvision(instance: Instance, present: Option<bool>, written: bool, stat: Option<nat>, read: Option<string>)
      returns (outcome: LoadOutcome, json: Option<string>)
      requires meta.Some? ==> |instance.values| == |meta.value|
      modifies this, instance
      ensures present == Some(true) ==>
              && lastSeen == (if stat.Some? then stat.value else old(lastSeen))
              && instance.values == ParsedInto(meta, old(instance.values), read).1
              && outcome == (match ParsedInto(meta, old(instance.values), read).0
                             case Accepted => LoadedExistingFile case Rejected => ParseFailed case Thrown => LoadRaised)
      ensures present != Some(true) ==> instance.values == old(instance.values) && outcome in {ProvisionedNewFile, ProvisionFailed}
      ensures outcome == ProvisionedNewFile <==>
              present == Some(false) && Printed(meta, instance.values) != "" && written
      ensures outcome == ProvisionedNewFile ==>
              json == Some(Printed(meta, instance.values)) && lastSeen == (if stat.Some? then stat.value else old(lastSeen))
      ensures outcome == ProvisionFailed ==> lastSeen == old(lastSeen)
      ensures json.Some? ==> present == Some(false) && json.value == Printed(meta, instance.values) != ""
    {
      json := None;
      if present.None? {
        return ProvisionFailed, json;
      }
      if !present.value {
        var text := MetaComponentToJson(meta, instance.values);
        if text == "" {
          return ProvisionFailed, json;
        }
        json := Some(text);
        if !written {
          return ProvisionFailed, json;
        }
        RecordMtime(stat);
        return ProvisionedNewFile, json;
      }
      RecordMtime(stat);
      var status := ParseFileInto(instance, read);
      match status {
        case Accepted => outcome := LoadedExistingFile;
        case Rejected => outcome := ParseFailed;
        case Thrown => outcome := LoadRaised;
      }
    }

    /** One stat; only a moved mtime is recorded and the file read again. */
    method PollReload(instance: Instance, stat: Option<nat>, read: Option<string>) returns (outcome: PollOutcome)
      requires meta.Some? ==> |instance.values| == |meta.value|
      modifies this, instance
      ensures outcome == Unchanged <==> stat.None? || stat.value == old(lastSeen)
      ensures outcome == Unchanged ==> lastSeen == old(lastSeen) && instance.values == old(instance.values)
      ensures outcome != Unchanged ==>
              && lastSeen == stat.value
              && instance.values == ParsedInto(meta, old(instance.values), read).1
              && outcome == (match ParsedInto(meta, old(instance.values), read).0
                             case Accepted => Reloaded case Rejected => Failed case Thrown => PollRaised)
    {
      if stat.None? || stat.value == lastSeen {
        return Unchanged;
      }
      lastSeen := stat.value;
      var status := ParseFileInto(instance, read);
      match status {
        case Accepted => outcome := Reloaded;
        case Rejected => outcome := Failed;
        case Thrown => outcome := PollRaised;
      }
    }
  }

  /** What the text of a config file makes of the live values, if it is accepted. */
  function Apply(c: Config, text: string): Option<Config> {
    var (status, values) := FromJson(Some(APP_CONFIG), ValuesOf(c), text);
    if status == Accepted then Some(ConfigOf(values)) else None
  }

  predicate Raises(c: Config, text: string) {
    FromJson(Some(APP_CONFIG), ValuesOf(c), text).0 == Thrown
  }

  /** The values once a text has been tried on them and the result clamped. */
  function Reload(c: Config, text: string): Config {
    if Apply(c, text).Some? then Clamp(Apply(c, text).value) else c
  }

  /** Fields the text leaves out come out of the clamp the same whether they were clamped before or not. */
  lemma ClampingFirstChangesNothing(c: Config, text: string)
    ensures Apply(c, text).Some? <==> Apply(Clamp(c), text).Some?
    ensures Reload(Clamp(c), text) == if Apply(c, text).Some? then Clamp(Apply(c, text).value) else Clamp(c)
  {
    hide ObjectIn;
    VerdictIgnoresInstance(Some(APP_CONFIG), ValuesOf(c), ValuesOf(Clamp(c)), text);
    if ObjectIn(text).Some? {
      SetFieldsMeaning(APP_CONFIG, ValuesOf(c), ObjectIn(text).value);
      SetFieldsMeaning(APP_CONFIG, ValuesOf(Clamp(c)), ObjectIn(text).value);
    }
  }

  /** on_tick()'s configuration poll: reload, and clamp what was reloaded. */
  method PollConfig(file: JsonConfigFile, live: Instance, c: Config, stat: Option<nat>, read: Option<string>)
    returns (outcome: PollOutcome)
    requires file.meta == Some(APP_CONFIG) && live.values == ValuesOf(c)
    modifies file, live
    ensures live.values == ValuesOf(if outcome != Unchanged && read.Some? then Reload(c, read.value) else c)
    ensures outcome == Reloaded ==> read.Some? && Apply(c, read.value).Some?
    ensures outcome in {Failed, PollRaised} ==> read.None? || Apply(c, read.value).None?
    ensures outcome == PollRaised ==> read.Some? && Raises(c, read.value)
    ensures outcome == Unchanged <==> stat.None? || stat.value == old(file.lastSeen)
    ensures file.lastSeen == if stat.Some? then stat.value else old(file.lastSeen)
  {
    outcome := file.PollReload(live, stat, read);
    if outcome == Reloaded {
      ReloadedAreInts(c, read.value);
      ClampToValid(live);
    }
  }

  /** The fields stay ints, whatever was read. */
  lemma ReloadedAreInts(c: Config, text: string)
    ensures var values := FromJson(Some(APP_CONFIG), ValuesOf(c), text).1;
            values[0].IntValue? && values[1].IntValue?
  {
    hide ReadValue;
    var rest := APP_CONFIG[1..];
    assert rest[0] == APP_CONFIG[1] && rest[1..] == [];
    if ObjectIn(text).Some? {
      var tail := SetFields(rest, ValuesOf(c)[1..], ObjectIn(text).value).1;
      assert |tail| == 1 && tail[0].IntValue?;
    }
  }

  /** on_started()'s configuration load: provision or load, then clamp whatever came of it. */
  method LoadConfig(file: JsonConfigFile, live: Instance, c: Config, present: Option<bool>, written: bool, stat: Option<nat>,
                    read: Option<string>)
    returns (outcome: LoadOutcome, json: Option<string>)
    requires file.meta == Some(APP_CONFIG) && live.values == ValuesOf(c)
    modifies file, live
    ensures outcome == LoadRaised <==> present == Some(true) && read.Some? && Raises(c, read.value)
    ensures outcome != LoadRaised ==>
            live.values == ValuesOf(if present == Some(true) && read.Some? then Reload(Clamp(c), read.value) else Clamp(c))
    ensures outcome == LoadedExistingFile <==> present == Some(true) && read.Some? && Apply(c, read.value).Some?
    ensures outcome == ProvisionedNewFile ==> json == Some(Printed(Some(APP_CONFIG), ValuesOf(c)))
  {
    outcome, json := file.LoadOrProvision(live, present, written, stat, read);
    if outcome != LoadRaised {
      if present == Some(true) && read.Some? {
        ReloadedAreInts(c, read.value);
        ClampingFirstChangesNothing(c, read.value);
      }
      ClampToValid(live);
    }
  }
}
