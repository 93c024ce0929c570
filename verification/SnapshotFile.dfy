/**
 * ecs/snapshot_file.hpp as it runs: the two sides of SnapshotComponents<Tuple> over a registry that is
 * filled in place, the temp-then-rename file write, and the sweep for leftover temp files.
 */
module SnapshotFile {
  import opened Common
  import opened Bytes
  import opened SnapshotCodec
  import opened WriterSteps

  class Registry {
    var alive: seq<Word>
    var free: seq<Word>
    var pools: seq<seq<Slot>>

    constructor ()
      ensures Value() == EMPTY
    {
      alive, free, pools := [], [], [];
    }

    function Value(): Reg
      reads this
    {
      Reg(alive, free, pools)
    }

    method Clear()
      modifies this
      ensures Value() == EMPTY
    {
      alive, free, pools := [], [], [];
    }

    /** Emplaces an entity id, which brings it to life when no live entity has it. */
    method EmplaceEntity(e: Word)
      modifies this
      ensures Value() == Revive(old(Value()), e)
    {
      if e !in alive {
        alive, free := alive + [e], Without(free, e);
      }
    }
  }

  method SaveWords(out: OutArchive, ws: seq<Word>)
    modifies out
    ensures out.bytes == old(out.bytes) + PutWords(ws)
  {
    WordWidth();
    for i := 0 to |ws|
      invariant out.bytes + PutWords(ws[i..]) == old(out.bytes) + PutWords(ws)
    {
      assert ws[i..][1..] == ws[i + 1..];
      out.Save(4, ws[i]);
    }
  }

  method SaveFields(out: OutArchive, shape: Shape, fields: seq<nat>)
    requires Fits(shape, fields)
    modifies out
    ensures out.bytes == old(out.bytes) + PutFields(shape, fields)
    decreases |shape|
  {
    if shape != [] {
      out.Save(shape[0], fields[0]);
      SaveFields(out, shape[1..], fields[1..]);
      Assoc(old(out.bytes), Put(shape[0], fields[0]), PutFields(shape[1..], fields[1..]));
    }
  }

  method SaveSlot(out: OutArchive, shape: Shape, slot: Slot)
    requires Fits(shape, slot.fields)
    modifies out
    ensures out.bytes == old(out.bytes) + (PutWord(slot.entity) + PutFields(shape, slot.fields))
  {
    WordWidth();
    out.Save(4, slot.entity);
    SaveFields(out, shape, slot.fields);
  }

  method SavePool(out: OutArchive, shape: Shape, slots: seq<Slot>)
    requires AllFit(shape, slots) && |slots| < 0x1_0000_0000
    modifies out
    ensures out.bytes == old(out.bytes) + PutPool(shape, slots)
  {
    WordWidth();
    out.Save(4, |slots|);
    ghost var whole := out.bytes + PutSlots(shape, slots);
    Assoc(old(out.bytes), PutWord(|slots|), PutSlots(shape, slots));
    for i := 0 to |slots|
      invariant AllFit(shape, slots[i..])
      invariant out.bytes + PutSlots(shape, slots[i..]) == whole
    {
      assert slots[i..][1..] == slots[i + 1..];
      ghost var before := out.bytes;
      SaveSlot(out, shape, slots[i]);
      Assoc(before, PutWord(slots[i].entity) + PutFields(shape, slots[i].fields), PutSlots(shape, slots[i + 1..]));
    }
  }

  /** The fold over the shared tuple on the write side. */
  method WriteComponents(pools: seq<seq<Slot>>, shapes: seq<Shape>, out: OutArchive)
    requires Writable(shapes, pools)
    modifies out
    ensures out.bytes == old(out.bytes) + PutTail(shapes, pools)
    decreases |shapes|
  {
    if shapes != [] {
      SavePool(out, shapes[0], pools[0]);
      WriteComponents(pools[1..], shapes[1..], out);
      Assoc(old(out.bytes), PutPool(shapes[0], pools[0]), PutTail(shapes[1..], pools[1..]));
    }
  }

  method SaveEntities(r: Reg, out: OutArchive)
    requires Countable(r) && out.bytes == []
    modifies out
    ensures out.bytes == PutEntities(r)
  {
    WordWidth();
    out.Save(4, |r.alive| + |r.free|);
    out.Save(4, |r.alive|);
    SaveWords(out, r.alive + r.free);
  }

  /** What on_tick() captures: the entity chunk, then the component tuple. */
  method Serialize(registry: Registry, shapes: seq<Shape>) returns (payload: Data)
    requires WellFormed(shapes, registry.Value())
    ensures payload == Encode(shapes, registry.Value())
  {
    SoundIsWritable(shapes, registry.alive, registry.pools);
    var out := new OutArchive();
    SaveEntities(registry.Value(), out);
    WriteComponents(registry.pools, shapes, out);
    payload := out.bytes;
  }

  method LoadWords(input: InArchive, n: nat) returns (r: Parsed<seq<Word>>)
    requires input.Valid()
    modifies input
    ensures input.Valid() && r == TakeWords(n, old(input.Rest()))
    ensures r.Got? ==> input.Rest() == r.rest
    decreases n
  {
    if n == 0 {
      return Got([], input.Rest());
    }
    WordWidth();
    var w := input.Load(4);
    if w.Thrown? {
      return Thrown;
    }
    var ws := LoadWords(input, n - 1);
    r := if ws.Thrown? then Thrown else Got([w.value] + ws.value, ws.rest);
  }

  method LoadEntities(input: InArchive, registry: Registry) returns (thrown: bool)
    requires input.Valid() && registry.Value() == EMPTY
    modifies input, registry
    ensures input.Valid()
    ensures match TakeEntities(old(input.Rest()))
            case Thrown => thrown
            case Got(r, rest) => !thrown && registry.Value() == r && input.Rest() == rest
  {
    var n := input.Load(4);
    if n.Thrown? {
      return true;
    }
    var used := input.Load(4);
    if used.Thrown? {
      return true;
    }
    var ws := LoadWords(input, n.value);
    if ws.Thrown? || used.value > |ws.value| || !Distinct(ws.value) {
      return true;
    }
    registry.alive, registry.free := ws.value[..used.value], ws.value[used.value..];
    thrown := false;
  }

  /** serialize() expands its field list one archive call at a time. */
  method LoadFields(input: InArchive, shape: Shape) returns (r: Parsed<seq<nat>>)
    requires input.Valid()
    modifies input
    ensures input.Valid() && r == TakeFields(shape, old(input.Rest()))
    ensures r.Got? ==> input.Rest() == r.rest
    decreases |shape|
  {
    if shape == [] {
      return Got([], input.Rest());
    }
    var v := input.Load(shape[0]);
    if v.Thrown? {
      return Thrown;
    }
    var vs := LoadFields(input, shape[1..]);
    r := if vs.Thrown? then Thrown else Got([v.value] + vs.value, vs.rest);
  }

  method LoadPool(input: InArchive, shape: Shape, count: nat, registry: Registry) returns (r: Option<seq<Slot>>)
    requires input.Valid()
    modifies input, registry
    ensures input.Valid()
    ensures match TakeSlots(shape, count, old(registry.Value()), [], old(input.Rest()))
            case Thrown => r.None?
            case Got((reg, pool), rest) => r == Some(pool) && registry.Value() == reg && input.Rest() == rest
  {
    hide Revive, TakeFields, Take, Pow256;
    var pool: seq<Slot> := [];
    assert Pow256(4) == 0x1_0000_0000 by { WordWidth(); }
    for i := 0 to count
      invariant input.Valid()
      invariant TakeSlots(shape, count, old(registry.Value()), [], old(input.Rest())) ==
                TakeSlots(shape, count - i, registry.Value(), pool, input.Rest())
    {
      var e := input.Load(4);
      if e.Thrown? {
        return None;
      }
      var fields := LoadFields(input, shape);
      if fields.Thrown? || e.value in Entities(pool) {
        return None;
      }
      registry.EmplaceEntity(e.value);
      pool := pool + [Slot(e.value, fields.value)];
    }
    r := Some(pool);
  }

  method LoadComponents(input: InArchive, shapes: seq<Shape>, registry: Registry) returns (thrown: bool)
    requires input.Valid()
    modifies input, registry
    ensures match TakeTail(shapes, old(registry.Value()), old(input.Rest()))
            case Thrown => thrown
            case Got(r, _) => !thrown && registry.Value() == r
  {
    for i := 0 to |shapes|
      invariant input.Valid()
      invariant TakeTail(shapes, old(registry.Value()), old(input.Rest())) ==
                TakeTail(shapes[i..], registry.Value(), input.Rest())
    {
      assert shapes[i..][1..] == shapes[i + 1..];
      var n := input.Load(4);
      if n.Thrown? {
        return true;
      }
      var pool := LoadPool(input, shapes[i], n.value, registry);
      if pool.None? {
        return true;
      }
      registry.pools := registry.pools + [pool.value];
    }
    thrown := false;
  }

  /**
   * read_snapshot_file(): an empty registry in, and out either the restored registry with the number of
   * live entities, or the error and an empty registry again.
   */
  method ReadSnapshotFile(registry: Registry, shapes: seq<Shape>, file: Option<Data>, expected: Word)
      returns (r: Result<nat, FileError>)
    requires registry.Value() == EMPTY
    modifies registry
    ensures match Read(shapes, file, expected)
            case Ok(reg) => r == Ok(|reg.alive|) && registry.Value() == reg
            case Err(e) => r == Err(e) && registry.Value() == EMPTY
  {
    if file.None? {
      return Err(OpenFailed);
    }
    var input := new InArchive(file.value, 0);
    assert input.Rest() == file.value;
    var magic := input.Load(4);
    if magic.Thrown? {
      return Err(BadHeader);
    }
    var version := input.Load(4);
    if version.Thrown? || magic.value != MAGIC {
      return Err(BadHeader);
    }
    if version.value != expected {
      return Err(VersionMismatch);
    }
    var thrown := LoadEntities(input, registry);
    if !thrown {
      thrown := LoadComponents(input, shapes, registry);
    }
    if thrown {
      registry.Clear();
      return Err(ArchiveError);
    }
    r := Ok(|registry.alive|);
  }

  /** The directory holding the state file and its temp siblings. */
  class FileSystem {
    var files: Files

    constructor (files: Files)
      ensures this.files == files
    {
      this.files := files;
    }
  }

  /** What the operating system does to one write: which calls succeed, and how much of a failed one lands. */
  datatype Weather = Weather(opens: bool, landed: nat, streams: bool, renames: bool, removes: bool)

  /** The writer steps one call goes through under that weather. */
  function Course(weather: Weather): seq<Fate> {
    if !weather.opens then [Fail(false)]
    else [Succeed, Spill(weather.landed)] +
         (if !weather.streams then [Fail(false), Succeed]
          else [Succeed, if weather.renames then Succeed else Fail(weather.removes)])
  }

  /**
   * write_snapshot_bytes_file(): the state file changes only on success, and then to exactly the header
   * and the payload; whatever happens, no file but the temp sibling is otherwise touched. It is the
   * uninterrupted run of one writer's disk steps.
   */
  method WriteSnapshotBytesFile(fs: FileSystem, taken: Taken, payload: Data, path: string, weather: Weather)
    returns (r: Result<nat, FileError>)
    modifies fs
    ensures var w := Writer(taken, FileBytes(taken.version, payload), ToOpen, false);
            var (files, w') := DiskRun(path, old(fs.files), w, Course(weather));
            fs.files == files && w'.pc == ToClear && w'.persisted == r.Ok?
    ensures r.Ok? ==> r.value == |payload| && path in fs.files && fs.files[path] == FileBytes(taken.version, payload)
    ensures r.Ok? ==> TempName(path, taken.tick) !in fs.files
    ensures r.Ok? <==> weather.opens && weather.streams && weather.renames
    ensures r == Err(OpenFailed) <==> !weather.opens
    ensures r == Err(WriteFailed) <==> weather.opens && !weather.streams
    ensures r == Err(RenameFailed) <==> weather.opens && weather.streams && !weather.renames
    ensures r == Err(OpenFailed) ==> fs.files == old(fs.files)
    ensures r == Err(WriteFailed) ==> var temp := TempName(path, taken.tick);
              temp in fs.files && fs.files[temp] <= FileBytes(taken.version, payload)
    ensures r == Err(RenameFailed) ==> var temp := TempName(path, taken.tick);
              if weather.removes then temp !in fs.files
              else temp in fs.files && fs.files[temp] == FileBytes(taken.version, payload)
    ensures forall name :: name != TempName(path, taken.tick) && (r.Err? || name != path) ==>
              (name in fs.files <==> name in old(fs.files)) &&
              (name in fs.files ==> fs.files[name] == old(fs.files)[name])
  {
    var temp := TempName(path, taken.tick);
    TempNamesDiffer(path, taken.tick, taken.tick);
    var content := FileBytes(taken.version, payload);
    ghost var w0 := Writer(taken, content, ToOpen, false);
    CourseUnfolds(path, fs.files, w0, weather);
    if !weather.opens {
      return Err(OpenFailed);
    }
    fs.files := fs.files[temp := []];
    if weather.landed <= |content| {
      fs.files := fs.files[temp := content[..weather.landed]];
    }
    if !weather.streams {
      return Err(WriteFailed);
    }
    fs.files := fs.files[temp := content];
    if !weather.renames {
      if weather.removes {
        fs.files := fs.files - {temp};
      }
      return Err(RenameFailed);
    }
    fs.files := fs.files[path := fs.files[temp]] - {temp};
    r := Ok(|payload|);
  }

  lemma RunCons(path: string, files: Files, w: Writer, fate: Fate, fates: seq<Fate>)
    ensures var (files', w') := DiskStep(path, files, w, fate);
            DiskRun(path, files, w, [fate] + fates) == DiskRun(path, files', w', fates)
  {
    assert ([fate] + fates)[1..] == fates;
  }

  lemma CourseUnfolds(path: string, files: Files, w: Writer, weather: Weather)
    requires w.pc == ToOpen
    ensures var temp := TempName(path, w.taken.tick);
            var f1 := files[temp := []];
            var f2 := if weather.landed <= |w.content| then f1[temp := w.content[..weather.landed]] else f1;
            var f3 := f2[temp := w.content];
            DiskRun(path, files, w, Course(weather)) ==
              if !weather.opens then (files, w.(pc := ToClear))
              else if !weather.streams then (f2, w.(pc := ToClear))
              else if !weather.renames then (if weather.removes then f3 - {temp} else f3, w.(pc := ToClear))
              else (f3[path := f3[temp]] - {temp}, w.(pc := ToClear, persisted := true))
  {
    var temp := TempName(path, w.taken.tick);
    var course := Course(weather);
    if weather.opens {
      var w1 := w.(pc := ToStream(false));
      var f1 := files[temp := []];
      var f2 := if weather.landed <= |w.content| then f1[temp := w.content[..weather.landed]] else f1;
      assert course == [Succeed] + ([Spill(weather.landed)] + course[2..]);
      RunCons(path, files, w, Succeed, [Spill(weather.landed)] + course[2..]);
      RunCons(path, f1, w1, Spill(weather.landed), course[2..]);
      assert course[2..] == [course[2]] + [course[3]];
      TailUnfolds(path, f2, w1, course[2], course[3]);
      hide DiskRun;
    }
  }

  lemma TailUnfolds(path: string, files: Files, w: Writer, third: Fate, fourth: Fate)
    ensures var (files', w') := DiskStep(path, files, w, third);
            DiskRun(path, files, w, [third] + [fourth]) == DiskStep(path, files', w', fourth)
  {
    hide DiskStep;
    RunCons(path, files, w, third, [fourth]);
    var (files', w') := DiskStep(path, files, w, third);
    RunCons(path, files', w', fourth, []);
    assert [fourth] + [] == [fourth];
  }

  /** cleanup_orphaned_snapshot_temp_files(): a directory walk that removes the orphans it can. */
  method CleanupOrphans(fs: FileSystem, path: string, stuck: set<string>)
    modifies fs
    ensures fs.files == Swept(path, old(fs.files), stuck)
  {
    var todo := fs.files.Keys;
    while todo != {}
      invariant todo <= fs.files.Keys <= old(fs.files).Keys
      invariant forall name :: name in fs.files ==> fs.files[name] == old(fs.files)[name]
      invariant forall name :: name in old(fs.files) && name !in fs.files ==> IsOrphan(path, name) && name !in stuck
      invariant forall name :: name in fs.files && name !in todo ==> !IsOrphan(path, name) || name in stuck
      decreases todo
    {
      var name :| name in todo;
      todo := todo - {name};
      if IsOrphan(path, name) && name !in stuck {
        fs.files := fs.files - {name};
      }
    }
  }

  /** The sweep never touches the state file, and takes every temp file a writer could have left. */
  lemma SweepSparesState(path: string, files: Files, stuck: set<string>, unique: nat)
    ensures path in files <==> path in Swept(path, files, stuck)
    ensures path in files ==> Swept(path, files, stuck)[path] == files[path]
    ensures TempName(path, unique) !in stuck ==> TempName(path, unique) !in Swept(path, files, stuck)
    ensures forall name :: name in Swept(path, files, stuck) <==> name in files && (!(path + ".tmp" <= name) || name in stuck)
    ensures forall name :: name in Swept(path, files, stuck) ==> Swept(path, files, stuck)[name] == files[name]
  {
    assert |TempPrefix(path)| > |path|;
    assert TempPrefix(path) <= TempName(path, unique);
  }
}
