/**
 * One snapshot writer's file operations, at the grain a process kill can observe them, and the names
 * they touch. The file system is the set of regular files by full path.
 */
module WriterSteps {
  import opened Bytes
  import opened SnapshotCodec
  import Decimal

  type Files = map<string, Data>

  /** The registry a snapshot captured, its layout version, and how many frames it stands for. */
  datatype Taken = Taken(reg: Reg, version: Word, tick: nat, lineage: nat)

  /** Where a writer thread is; a stream that has failed once stays failed. */
  datatype Pc = ToOpen | ToStream(failed: bool) | ToRename | ToClear | ToPost

  datatype Writer = Writer(taken: Taken, content: Data, pc: Pc, persisted: bool)

  /** How the operation at hand turns out; Spill pushes buffered bytes to the temp file early. */
  datatype Fate = Succeed | Fail(removed: bool) | Spill(upTo: nat)

  function TempPrefix(path: string): string {
    path + ".tmp"
  }

  function TempName(path: string, unique: nat): string {
    TempPrefix(path) + Decimal.Digits(unique)
  }

  lemma TempNamesDiffer(path: string, m: nat, n: nat)
    ensures path + ".tmp" <= TempName(path, m)
    ensures TempName(path, m) != path
    ensures TempName(path, m) == TempName(path, n) ==> m == n
  {
    var k := |TempPrefix(path)|;
    assert TempName(path, m)[k..] == Decimal.Digits(m) && TempName(path, n)[k..] == Decimal.Digits(n);
    assert |TempName(path, m)| > |path|;
    if TempName(path, m) == TempName(path, n) {
      Decimal.DigitsInjective(m, n);
    }
  }

  function Content(files: Files, name: string): Data {
    if name in files then files[name] else []
  }

  function DiskStep(path: string, files: Files, w: Writer, fate: Fate): (Files, Writer) {
    var temp := TempName(path, w.taken.tick);
    match w.pc
    case ToOpen => (
      match fate
      case Succeed => (files[temp := []], w.(pc := ToStream(false)))
      case Fail(_) => (files, w.(pc := ToClear))
      case Spill(_) => (files, w))
    case ToStream(failed) => (
      match fate
      case Succeed =>
        if failed then (files, w.(pc := ToClear)) else (files[temp := w.content], w.(pc := ToRename))
      case Fail(_) => (files, w.(pc := ToStream(true)))
      case Spill(n) =>
        if !failed && |Content(files, temp)| <= n <= |w.content| then (files[temp := w.content[..n]], w)
        else (files, w))
    case ToRename => (
      match fate
      case Succeed => (files[path := Content(files, temp)] - {temp}, w.(pc := ToClear, persisted := true))
      case Fail(removed) => (if removed then files - {temp} else files, w.(pc := ToClear))
      case Spill(_) => (files, w))
    case ToClear => (files, w)
    case ToPost => (files, w)
  }

  function DiskRun(path: string, files: Files, w: Writer, fates: seq<Fate>): (Files, Writer)
    decreases |fates|
  {
    if fates == [] then (files, w)
    else
      var (files', w') := DiskStep(path, files, w, fates[0]);
      DiskRun(path, files', w', fates[1..])
  }

  /** A leftover temp file: a sibling whose name starts with the state file's name and ".tmp". */
  predicate IsOrphan(path: string, name: string) {
    TempPrefix(path) <= name
  }

  /** The sweep removes every orphan except those whose removal fails. */
  function Swept(path: string, files: Files, stuck: set<string>): Files {
    map name | name in files && (!IsOrphan(path, name) || name in stuck) :: files[name]
  }
}
