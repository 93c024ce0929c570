/**
 * cpm_get_shortest_hash: concurrent CMake processes sharing one cache each claim the shortest free prefix of
 * a 40-character origin hash, one lock-protected claim file per prefix. Steps not possible do nothing.
 */
module ShortHash {

  const FULL: nat := 40

  type Hash = h: string | |h| == FULL witness seq(FULL, _ => '0')

  /** Where a call is; `len` is the prefix length it is trying, a multiple of 4 up to 40. */
  datatype Pc =
    | Checking
    | Locking(len: nat)
    | Touching(len: nat)
    | Reading(len: nat)
    | Truncating(len: nat)
    | Writing(len: nat)
    | Releasing(len: nat, won: bool)
    | Done
    | Dead

  datatype Call = Call(hash: Hash, pc: Pc)

  /** `found` says that the answer is an existing full-hash directory rather than a claim. */
  datatype Answer = Answer(hash: Hash, name: string, found: bool)

  /**
   * `files` are the claim files by prefix, `dirs` the directories already in the cache. History: `legacy`, the
   * directories there before the first call, and every answer given so far.
   */
  datatype State = State(
    files: map<string, string>, locks: map<string, nat>, dirs: set<string>, calls: seq<Call>,
    legacy: set<string>, answers: seq<Answer>)

  /** A killed process drops its lock; killed while writing, it leaves the first `cut` characters. */
  datatype Step =
    | Spawn(hash: Hash)
    | Advance(who: nat)
    | Crash(who: nat, cut: nat)
    | MakeDir(which: nat)
    | OutsideDir(name: string)

  predicate IsLength(len: nat) {
    4 <= len <= FULL && len % 4 == 0
  }

  function Prefix(h: Hash, len: nat): string {
    if len <= FULL then h[..len] else h
  }

  function WithPc(s: State, who: nat, pc: Pc): State
    requires who < |s.calls|
  {
    s.(calls := s.calls[who := s.calls[who].(pc := pc)])
  }

  function Answered(s: State, who: nat, name: string, found: bool): State
    requires who < |s.calls|
  {
    WithPc(s, who, Done).(answers := s.answers + [Answer(s.calls[who].hash, name, found)])
  }

  function Advanced(s: State, who: nat): State
    requires who < |s.calls|
  {
    var h := s.calls[who].hash;
    match s.calls[who].pc
    case Checking => if h in s.dirs then Answered(s, who, h, true) else WithPc(s, who, Locking(4))
    case Locking(len) =>
      var n := Prefix(h, len);
      if n in s.locks then s else WithPc(s.(locks := s.locks[n := who]), who, Touching(len))
    case Touching(len) =>
      var n := Prefix(h, len);
      WithPc(if n in s.files then s else s.(files := s.files[n := ""]), who, Reading(len))
    case Reading(len) =>
      var n := Prefix(h, len);
      if n !in s.files || s.files[n] == "" then WithPc(s, who, Truncating(len))
      else WithPc(s, who, Releasing(len, s.files[n] == h))
    case Truncating(len) => WithPc(s.(files := s.files[Prefix(h, len) := ""]), who, Writing(len))
    case Writing(len) => WithPc(s.(files := s.files[Prefix(h, len) := h]), who, Releasing(len, true))
    case Releasing(len, won) =>
      var s' := s.(locks := s.locks - {Prefix(h, len)});
      if won || len >= FULL then Answered(s', who, Prefix(h, len), false) else WithPc(s', who, Locking(len + 4))
    case Done => s
    case Dead => s
  }

  function Holds(pc: Pc): bool {
    pc.Touching? || pc.Reading? || pc.Truncating? || pc.Writing? || pc.Releasing?
  }

  function Crashed(s: State, who: nat, cut: nat): State
    requires who < |s.calls|
  {
    var h, pc := s.calls[who].hash, s.calls[who].pc;
    var s' := if Holds(pc) then s.(locks := s.locks - {Prefix(h, pc.len)}) else s;
    var s'' := if pc.Writing? then s'.(files := s'.files[Prefix(h, pc.len) := Prefix(h, cut)]) else s';
    if pc.Done? then s else WithPc(s'', who, Dead)
  }

  function Next(s: State, step: Step): State {
    match step
    case Spawn(hash) => s.(calls := s.calls + [Call(hash, Checking)])
    case Advance(who) => if who < |s.calls| then Advanced(s, who) else s
    case Crash(who, cut) => if who < |s.calls| then Crashed(s, who, cut) else s
    case MakeDir(which) => if which < |s.answers| then s.(dirs := s.dirs + {s.answers[which].name}) else s
    case OutsideDir(name) => s.(dirs := s.dirs + {name})
  }

  function Run(s: State, steps: seq<Step>): State
    decreases |steps|
  {
    if steps == [] then s else Run(Next(s, steps[0]), steps[1..])
  }

  /** A cache before the first call, with whatever directories an earlier CPM left in it. */
  predicate IsNew(s: State) {
    s.files == map[] && s.locks == map[] && s.calls == [] && s.answers == [] && s.legacy == s.dirs
  }

  // ---------------------------------------------------------------- what every step keeps

  /** The prefix holds something that is not this hash: for good, since only empty files are written. */
  predicate IsTaken(s: State, h: Hash, len: nat) {
    Prefix(h, len) in s.files && s.files[Prefix(h, len)] != "" && s.files[Prefix(h, len)] != h
  }

  /** All prefixes shorter than `len` are taken by others. */
  ghost predicate Blocked(s: State, h: Hash, len: nat) {
    forall j: nat :: IsLength(j) && j < len ==> IsTaken(s, h, j)
  }

  predicate IsClaimed(s: State, h: Hash, name: string) {
    name in s.files && s.files[name] == h
  }

  /** What a call knows at each point; a lock holder's knowledge of its claim file stays true. */
  ghost predicate CallOk(s: State, who: nat)
    requires who < |s.calls|
  {
    var h, pc := s.calls[who].hash, s.calls[who].pc;
    if pc.Locking? then IsLength(pc.len) && Blocked(s, h, pc.len)
    else if Holds(pc) then
      var n := Prefix(h, pc.len);
      && IsLength(pc.len) && Blocked(s, h, pc.len)
      && n in s.locks && s.locks[n] == who
      && (pc.Reading? ==> n in s.files)
      && (pc.Truncating? || pc.Writing? ==> n in s.files && s.files[n] == "")
      && (pc.Releasing? && pc.won ==> IsClaimed(s, h, n))
      && (pc.Releasing? && !pc.won ==> IsTaken(s, h, pc.len))
    else true
  }

  /** The name is the hash itself, or its shortest prefix that no other hash took. */
  predicate AnswerOk(s: State, a: Answer) {
    a.name == a.hash || (IsLength(|a.name|) && a.name == Prefix(a.hash, |a.name|) && IsClaimed(s, a.hash, a.name))
  }

  ghost predicate Inv(s: State) {
    && (forall i :: 0 <= i < |s.calls| ==> CallOk(s, i))
    && (forall i :: 0 <= i < |s.answers| ==> AnswerOk(s, s.answers[i]))
  }

  lemma FullPrefix(h: Hash)
    ensures Prefix(h, FULL) == h
  {
  }

  /** Files only ever change from empty, and a lock holder's file only by its own hand. */
  ghost predicate Grows(s: State, t: State, who: nat) {
    && (forall n :: n in s.files && s.files[n] != "" ==> n in t.files && t.files[n] == s.files[n])
    && (forall n :: n in s.locks && s.locks[n] != who ==>
          n in t.locks && t.locks[n] == s.locks[n] && (n in s.files ==> n in t.files && t.files[n] == s.files[n]))
    && |t.calls| == |s.calls| && forall i :: 0 <= i < |s.calls| && i != who ==> t.calls[i] == s.calls[i]
  }

  lemma BlockedKept(s: State, t: State, h: Hash, len: nat)
    requires Blocked(s, h, len)
    requires forall n :: n in s.files && s.files[n] != "" ==> n in t.files && t.files[n] == s.files[n]
    ensures Blocked(t, h, len)
  {
    forall j: nat | IsLength(j) && j < len ensures IsTaken(t, h, j) {
      assert IsTaken(s, h, j);
    }
  }

  lemma OthersKept(s: State, t: State, who: nat, i: nat)
    requires i < |s.calls| && i != who && CallOk(s, i) && Grows(s, t, who)
    ensures CallOk(t, i)
  {
    hide Prefix, IsLength, Blocked;
    var h, pc := s.calls[i].hash, s.calls[i].pc;
    if pc.Locking? || Holds(pc) {
      BlockedKept(s, t, h, pc.len);
    }
  }

  lemma AnswersKept(s: State, t: State, who: nat, a: Answer)
    requires AnswerOk(s, a) && Grows(s, t, who)
    ensures AnswerOk(t, a)
  {
  }

  lemma AdvanceGrows(s: State, who: nat)
    requires who < |s.calls| && CallOk(s, who)
    ensures Grows(s, Advanced(s, who), who)
  {
    hide Prefix, IsLength, Blocked;
  }

  lemma CrashGrows(s: State, who: nat, cut: nat)
    requires who < |s.calls| && CallOk(s, who)
    ensures Grows(s, Crashed(s, who, cut), who)
  {
    hide Prefix, IsLength, Blocked;
  }

  lemma BlockedNext(s: State, h: Hash, len: nat)
    requires IsLength(len) && Blocked(s, h, len) && IsTaken(s, h, len)
    ensures Blocked(s, h, len + 4)
  {
    hide IsTaken;
    forall j: nat | IsLength(j) && j < len + 4 ensures IsTaken(s, h, j) {
      assert j < len || j == len;
    }
  }

  lemma AdvanceKeepsOwn(s: State, who: nat)
    requires who < |s.calls| && CallOk(s, who)
    ensures CallOk(Advanced(s, who), who)
  {
    hide Prefix, Blocked;
    var h, pc := s.calls[who].hash, s.calls[who].pc;
    var t := Advanced(s, who);
    AdvanceGrows(s, who);
    if pc.Checking? && h !in s.dirs {
      NothingShorter(t, h);
    } else if pc.Locking? || Holds(pc) {
      BlockedKept(s, t, h, pc.len);
      if pc.Releasing? && !pc.won && pc.len < FULL {
        BlockedNext(s, h, pc.len);
        BlockedKept(s, t, h, pc.len + 4);
      }
    }
  }

  lemma NothingShorter(s: State, h: Hash)
    ensures Blocked(s, h, 4)
  {
  }

  lemma AdvanceAnswers(s: State, who: nat)
    requires who < |s.calls| && CallOk(s, who)
    ensures var t := Advanced(s, who);
            t.answers == s.answers || (|t.answers| == |s.answers| + 1 && t.answers[..|s.answers|] == s.answers &&
                                       AnswerOk(t, t.answers[|s.answers|]))
  {
    hide Blocked;
    var h, pc := s.calls[who].hash, s.calls[who].pc;
    if pc.Releasing? && pc.len == FULL {
      FullPrefix(h);
    }
  }

  lemma InvKept(s: State, step: Step)
    requires Inv(s)
    ensures Inv(Next(s, step))
  {
    hide CallOk, AnswerOk, Advanced, Crashed, Grows;
    var t := Next(s, step);
    match step {
      case Spawn(hash) =>
        forall i | 0 <= i < |s.calls| ensures CallOk(t, i) {
          FilesDecide(s, t, i);
        }
        SpawnedOk(t, |s.calls|);
        forall i | 0 <= i < |s.answers| ensures AnswerOk(t, t.answers[i]) {
          SameFilesAnswer(s, t, s.answers[i]);
        }
      case Advance(who) =>
        if who < |s.calls| {
          AdvanceGrows(s, who);
          AdvanceKeepsOwn(s, who);
          AdvanceAnswers(s, who);
          OthersAllKept(s, t, who);
        }
      case Crash(who, cut) =>
        if who < |s.calls| {
          CrashGrows(s, who, cut);
          CrashKeepsOwn(s, who, cut);
          OthersAllKept(s, t, who);
        }
      case MakeDir(_) => DirsAside(s, t);
      case OutsideDir(_) => DirsAside(s, t);
    }
  }

  lemma FilesDecide(s: State, t: State, i: nat)
    requires i < |s.calls| <= |t.calls| && t.calls[i] == s.calls[i] && t.files == s.files && t.locks == s.locks
    requires CallOk(s, i)
    ensures CallOk(t, i)
  {
    var h, pc := s.calls[i].hash, s.calls[i].pc;
    if pc.Locking? || Holds(pc) {
      BlockedKept(s, t, h, pc.len);
    }
  }

  lemma SameFilesAnswer(s: State, t: State, a: Answer)
    requires t.files == s.files && AnswerOk(s, a)
    ensures AnswerOk(t, a)
  {
  }

  lemma SpawnedOk(s: State, i: nat)
    requires i < |s.calls| && s.calls[i].pc.Checking?
    ensures CallOk(s, i)
  {
  }

  lemma CrashKeepsOwn(s: State, who: nat, cut: nat)
    requires who < |s.calls| && CallOk(s, who)
    ensures CallOk(Crashed(s, who, cut), who) && Crashed(s, who, cut).answers == s.answers
  {
    hide Blocked, Prefix;
  }

  lemma OthersAllKept(s: State, t: State, who: nat)
    requires Inv(s) && Grows(s, t, who)
    ensures |t.calls| == |s.calls|
    ensures forall i :: 0 <= i < |s.calls| && i != who ==> CallOk(t, i)
    ensures forall i :: 0 <= i < |s.answers| ==> AnswerOk(t, s.answers[i])
  {
    assert |t.calls| == |s.calls|;
    hide CallOk, AnswerOk, Grows;
    forall i | 0 <= i < |s.calls| && i != who ensures CallOk(t, i) {
      OthersKept(s, t, who, i);
    }
    forall i | 0 <= i < |s.answers| ensures AnswerOk(t, s.answers[i]) {
      AnswersKept(s, t, who, s.answers[i]);
    }
  }

  lemma DirsAside(s: State, t: State)
    requires Inv(s) && t == s.(dirs := t.dirs)
    ensures Inv(t)
  {
    hide CallOk, AnswerOk;
    forall i | 0 <= i < |t.calls| ensures CallOk(t, i) {
      FilesDecide(s, t, i);
    }
    forall i | 0 <= i < |t.answers| ensures AnswerOk(t, t.answers[i]) {
      SameFilesAnswer(s, t, s.answers[i]);
    }
  }

  lemma {:induction false} InvHolds(s: State, steps: seq<Step>)
    requires Inv(s)
    ensures Inv(Run(s, steps))
    decreases |steps|
  {
    hide Inv, Next;
    if steps != [] {
      InvKept(s, steps[0]);
      InvHolds(Next(s, steps[0]), steps[1..]);
    }
  }

  /**
   * Under any interleaving, with calls killed anywhere and directories created by anyone, two different origin
   * hashes are never given the same name.
   */
  lemma NamesNeverShared(s: State, steps: seq<Step>, i: nat, j: nat)
    requires IsNew(s) && i < |Run(s, steps).answers| && j < |Run(s, steps).answers|
    ensures var a := Run(s, steps).answers; a[i].name == a[j].name ==> a[i].hash == a[j].hash
  {
    hide Run;
    InvHolds(s, steps);
    var t := Run(s, steps);
    var a, b := t.answers[i], t.answers[j];
    assert AnswerOk(t, a) && AnswerOk(t, b);
    if a.name == b.name && |a.name| == FULL {
      FullPrefix(a.hash);
      FullPrefix(b.hash);
    }
  }

  // ---------------------------------------------------------------- the same hash always gets the same name

  /** Nobody else creates a directory whose name could be a full hash. */
  predicate IsInside(step: Step) {
    step.OutsideDir? ==> |step.name| != FULL
  }

  /** A full-hash name comes from a directory that was there before, or from all shorter prefixes being taken. */
  ghost predicate Settled(s: State, a: Answer) {
    if a.name == a.hash then a.hash in s.legacy || Blocked(s, a.hash, FULL)
    else |a.name| < FULL && a.hash !in s.legacy && Blocked(s, a.hash, |a.name|)
  }

  ghost predicate StableInv(s: State) {
    && Inv(s)
    && s.legacy <= s.dirs
    && (forall i :: 0 <= i < |s.answers| ==> Settled(s, s.answers[i]))
    && (forall i :: 0 <= i < |s.calls| && (s.calls[i].pc.Locking? || Holds(s.calls[i].pc)) ==> s.calls[i].hash !in s.legacy)
    && (forall d :: d in s.dirs && d !in s.legacy && |d| == FULL ==> Blocked(s, d, FULL))
  }

  lemma SettledKept(s: State, t: State, a: Answer)
    requires Settled(s, a) && t.legacy == s.legacy
    requires forall n :: n in s.files && s.files[n] != "" ==> n in t.files && t.files[n] == s.files[n]
    ensures Settled(t, a)
  {
    hide Blocked;
    if a.name != a.hash {
      BlockedKept(s, t, a.hash, |a.name|);
    } else if a.hash !in s.legacy {
      BlockedKept(s, t, a.hash, FULL);
    }
  }

  /** Which answers an advance can add, and why it is settled. */
  lemma AdvanceSettles(s: State, who: nat)
    requires StableInv(s) && who < |s.calls|
    ensures var t := Advanced(s, who);
            && t.dirs == s.dirs && t.legacy == s.legacy
            && (t.answers == s.answers ||
                (|t.answers| == |s.answers| + 1 && t.answers[..|s.answers|] == s.answers && Settled(t, t.answers[|s.answers|])))
            && (t.calls[who].pc.Locking? || Holds(t.calls[who].pc) ==> t.calls[who].hash !in t.legacy)
  {
    hide Blocked, Prefix, Grows;
    var h, pc := s.calls[who].hash, s.calls[who].pc;
    var t := Advanced(s, who);
    assert CallOk(s, who);
    AdvanceGrows(s, who);
    if pc.Checking? && h in s.dirs {
      if h !in s.legacy {
        SameFilesBlocked(s, t, h, FULL);
      }
    } else if pc.Releasing? {
      SameFilesBlocked(s, t, h, pc.len);
      FullPrefix(h);
      PrefixLength(h, pc.len);
    }
  }

  lemma SameFilesBlocked(s: State, t: State, h: Hash, len: nat)
    requires t.files == s.files && Blocked(s, h, len)
    ensures Blocked(t, h, len)
  {
    BlockedKept(s, t, h, len);
  }

  lemma PrefixLength(h: Hash, len: nat)
    requires IsLength(len)
    ensures |Prefix(h, len)| == len
  {
  }

  lemma FilesOnlyGrow(s: State, step: Step)
    requires Inv(s)
    ensures forall n :: n in s.files && s.files[n] != "" ==> n in Next(s, step).files && Next(s, step).files[n] == s.files[n]
    ensures Next(s, step).legacy == s.legacy
  {
    hide CallOk, Advanced, Crashed, AnswerOk;
    if step.Advance? && step.who < |s.calls| {
      AdvanceGrows(s, step.who);
      AdvanceLegacy(s, step.who);
    } else if step.Crash? && step.who < |s.calls| {
      CrashGrows(s, step.who, step.cut);
      CrashLegacy(s, step.who, step.cut);
    }
  }

  lemma AdvanceLegacy(s: State, who: nat)
    requires who < |s.calls|
    ensures Advanced(s, who).legacy == s.legacy && Advanced(s, who).dirs == s.dirs
  {
  }

  lemma CrashLegacy(s: State, who: nat, cut: nat)
    requires who < |s.calls|
    ensures Crashed(s, who, cut).legacy == s.legacy && Crashed(s, who, cut).dirs == s.dirs
    ensures !(Crashed(s, who, cut).calls[who].pc.Locking? || Holds(Crashed(s, who, cut).calls[who].pc))
    ensures Crashed(s, who, cut).answers == s.answers
  {
  }

  lemma StableInvKept(s: State, step: Step)
    requires StableInv(s) && IsInside(step)
    ensures StableInv(Next(s, step))
  {
    hide CallOk, AnswerOk, Advanced, Crashed, Grows, Blocked, Settled, Inv;
    var t := Next(s, step);
    InvKept(s, step);
    FilesOnlyGrow(s, step);
    forall i | 0 <= i < |s.answers| ensures Settled(t, s.answers[i]) {
      SettledKept(s, t, s.answers[i]);
    }
    forall d | d in s.dirs && d !in s.legacy && |d| == FULL ensures Blocked(t, d, FULL) {
      BlockedKept(s, t, d, FULL);
    }
    match step {
      case Spawn(hash) =>
      case Advance(who) =>
        if who < |s.calls| {
          AdvanceSettles(s, who);
          OtherCallsSame(s, who);
        }
      case Crash(who, cut) =>
        if who < |s.calls| {
          CrashLegacy(s, who, cut);
          OtherCallsCrash(s, who, cut);
        }
      case MakeDir(which) =>
        if which < |s.answers| {
          NamedDirBlocked(s, which);
          SameFilesMade(s, t, s.answers[which].name);
        }
      case OutsideDir(_) =>
    }
  }

  lemma OtherCallsSame(s: State, who: nat)
    requires Inv(s) && who < |s.calls|
    ensures var t := Advanced(s, who); |t.calls| == |s.calls| && forall i :: 0 <= i < |s.calls| && i != who ==> t.calls[i] == s.calls[i]
  {
    hide Prefix;
  }

  lemma OtherCallsCrash(s: State, who: nat, cut: nat)
    requires Inv(s) && who < |s.calls|
    ensures var t := Crashed(s, who, cut); |t.calls| == |s.calls| && forall i :: 0 <= i < |s.calls| && i != who ==> t.calls[i] == s.calls[i]
  {
    hide Prefix;
  }

  /** A directory made for an answer is a full-hash directory only if the answer was the hash itself. */
  lemma NamedDirBlocked(s: State, which: nat)
    requires StableInv(s) && which < |s.answers|
    ensures var d := s.answers[which].name; d !in s.legacy && |d| == FULL ==> Blocked(s, d, FULL)
  {
    hide Blocked, CallOk;
    var a := s.answers[which];
    assert AnswerOk(s, a) && Settled(s, a);
    FullPrefix(a.hash);
  }

  lemma SameFilesMade(s: State, t: State, d: string)
    requires t.files == s.files
    ensures |d| == FULL && Blocked(s, d, FULL) ==> Blocked(t, d, FULL)
  {
    if |d| == FULL && Blocked(s, d, FULL) {
      BlockedKept(s, t, d, FULL);
    }
  }

  lemma {:induction false} StableInvHolds(s: State, steps: seq<Step>)
    requires StableInv(s) && forall i :: 0 <= i < |steps| ==> IsInside(steps[i])
    ensures StableInv(Run(s, steps))
    decreases |steps|
  {
    hide StableInv, Next, IsInside;
    if steps != [] {
      assert IsInside(steps[0]);
      StableInvKept(s, steps[0]);
      StableInvHolds(Next(s, steps[0]), steps[1..]);
    }
  }

  /**
   * Unless someone else creates full-hash directories meanwhile, every call for one hash gets the same name,
   * even when other calls are killed halfway through writing a claim.
   */
  lemma NamesAreStable(s: State, steps: seq<Step>, i: nat, j: nat)
    requires IsNew(s) && (forall k :: 0 <= k < |steps| ==> IsInside(steps[k]))
    requires i < |Run(s, steps).answers| && j < |Run(s, steps).answers|
    ensures var a := Run(s, steps).answers; a[i].hash == a[j].hash ==> a[i].name == a[j].name
  {
    hide Run;
    StableInvHolds(s, steps);
    var t := Run(s, steps);
    if t.answers[i].hash == t.answers[j].hash {
      SameName(t, t.answers[i], t.answers[j]);
      SameName(t, t.answers[j], t.answers[i]);
    }
  }

  lemma SameName(s: State, a: Answer, b: Answer)
    requires AnswerOk(s, a) && AnswerOk(s, b) && Settled(s, a) && Settled(s, b) && a.hash == b.hash
    ensures !(|a.name| < |b.name|)
    ensures |a.name| == |b.name| ==> a.name == b.name
  {
    assert b.hash !in s.legacy && IsLength(|a.name|) && |a.name| < |b.name| ==> IsTaken(s, b.hash, |a.name|);
  }

  lemma {:induction false} LegacyStays(s: State, steps: seq<Step>)
    requires Inv(s)
    ensures Run(s, steps).legacy == s.legacy
    decreases |steps|
  {
    hide Inv, Next;
    if steps != [] {
      InvKept(s, steps[0]);
      FilesOnlyGrow(s, steps[0]);
      LegacyStays(Next(s, steps[0]), steps[1..]);
    }
  }

  /**
   * Every name is a directory for the whole hash that was there from the start, or the first 4, 8, ... or 40
   * characters of the hash, each shorter one of which belongs to somebody else.
   */
  lemma AnswersAreShortest(s: State, steps: seq<Step>, i: nat)
    requires IsNew(s) && (forall k :: 0 <= k < |steps| ==> IsInside(steps[k]))
    requires i < |Run(s, steps).answers|
    ensures var t := Run(s, steps);
            var a := t.answers[i];
            && a.name <= a.hash
            && ((a.hash in s.dirs && a.name == a.hash) ||
                (a.hash !in s.dirs && 4 <= |a.name| <= 40 && |a.name| % 4 == 0 &&
                 forall j: nat :: 4 <= j < |a.name| && j % 4 == 0 ==>
                   a.hash[..j] in t.files && t.files[a.hash[..j]] != "" && t.files[a.hash[..j]] != a.hash))
  {
    hide Run;
    StableInvHolds(s, steps);
    LegacyStays(s, steps);
    var t := Run(s, steps);
    var a := t.answers[i];
    assert AnswerOk(t, a) && Settled(t, a);
    forall j: nat | 4 <= j < |a.name| && j % 4 == 0 && a.hash !in s.dirs
      ensures a.hash[..j] in t.files && t.files[a.hash[..j]] != "" && t.files[a.hash[..j]] != a.hash
    {
      assert IsLength(j) && Prefix(a.hash, j) == a.hash[..j];
      assert IsTaken(t, a.hash, j);
    }
  }

  /** A full-hash directory created from outside does change the answer: the two names differ from then on. */
  lemma OutsideDirectoryRenames(s: State, h: Hash, name: string)
    requires Answer(h, name, false) in s.answers && name != h
    ensures var t := Run(s, [OutsideDir(h), Spawn(h), Advance(|s.calls|)]);
            Answer(h, name, false) in t.answers && Answer(h, h, true) in t.answers
  {
    var steps := [OutsideDir(h), Spawn(h), Advance(|s.calls|)];
    assert steps[1..] == [Spawn(h), Advance(|s.calls|)] && steps[1..][1..] == [Advance(|s.calls|)];
    var u := Next(Next(s, OutsideDir(h)), Spawn(h));
    var t := Next(u, Advance(|s.calls|));
    assert steps[1..][1..][1..] == [];
    assert Run(u, [Advance(|s.calls|)]) == Run(t, []);
    assert Run(Next(s, OutsideDir(h)), steps[1..]) == Run(u, steps[1..][1..]);
    assert t.answers[|s.answers|] == Answer(h, h, true);
  }

  // ---------------------------------------------------------------- claimed by length 40

  /** A process killed while writing the length-40 claim of this hash, leaving some of it but not all. */
  predicate IsTear(s: State, step: Step, h: Hash) {
    step.Crash? && step.who < |s.calls| && s.calls[step.who] == Call(h, Writing(FULL)) && 0 < step.cut < FULL
  }

  predicate Torn(s: State, steps: seq<Step>, h: Hash)
    decreases |steps|
  {
    steps != [] && (IsTear(s, steps[0], h) || Torn(Next(s, steps[0]), steps[1..], h))
  }

  /** Once torn, every prefix of the hash is taken for good; until then its claims all hold. */
  ghost predicate TearInv(s: State, h: Hash, torn: bool) {
    && Inv(s)
    && if torn then IsTaken(s, h, FULL) && Blocked(s, h, FULL)
       else !IsTaken(s, h, FULL) &&
            forall i :: 0 <= i < |s.answers| && s.answers[i].hash == h && !s.answers[i].found ==> IsClaimed(s, h, s.answers[i].name)
  }

  /** At length 40 only a torn claim can make a call give up. */
  lemma LastLengthWins(s: State, who: nat)
    requires Inv(s) && who < |s.calls|
    ensures var pc := s.calls[who].pc;
            pc.Releasing? && pc.len == FULL && !IsTaken(s, s.calls[who].hash, FULL) ==> pc.won
  {
    assert CallOk(s, who);
  }

  /** The length-40 file of a hash is only ever that hash's own. */
  lemma OnlyOwnPrefix(h: Hash, other: Hash, len: nat)
    requires IsLength(len) && Prefix(other, len) == h
    ensures len == FULL && other == h
  {
    PrefixLength(other, len);
  }

  lemma AdvanceNeverTears(s: State, who: nat, h: Hash)
    requires Inv(s) && who < |s.calls| && !IsTaken(s, h, FULL)
    ensures !IsTaken(Advanced(s, who), h, FULL)
    ensures var t := Advanced(s, who);
            t.answers == s.answers ||
            (|t.answers| == |s.answers| + 1 && t.answers[..|s.answers|] == s.answers &&
             var a := t.answers[|s.answers|]; a.hash == h && !a.found ==> IsClaimed(t, h, a.name))
  {
    hide Blocked, AnswerOk, Inv;
    var hash, pc := s.calls[who].hash, s.calls[who].pc;
    assert CallOk(s, who) by { OwnCallOk(s, who); }
    LastLengthWins(s, who);
    FullPrefix(h);
    FullPrefix(hash);
    if Holds(pc) && Prefix(hash, pc.len) == h {
      OnlyOwnPrefix(h, hash, pc.len);
    }
  }

  lemma OwnCallOk(s: State, who: nat)
    requires Inv(s) && who < |s.calls|
    ensures CallOk(s, who)
  {
  }

  lemma CrashTears(s: State, who: nat, cut: nat, h: Hash)
    requires Inv(s) && who < |s.calls| && !IsTaken(s, h, FULL)
    ensures IsTaken(Crashed(s, who, cut), h, FULL) <==> IsTear(s, Crash(who, cut), h)
    ensures IsTear(s, Crash(who, cut), h) ==> Blocked(s, h, FULL)
  {
    hide Blocked, AnswerOk, Inv;
    var hash, pc := s.calls[who].hash, s.calls[who].pc;
    assert CallOk(s, who) by { OwnCallOk(s, who); }
    FullPrefix(h);
    if pc.Writing? && Prefix(hash, pc.len) == h {
      OnlyOwnPrefix(h, hash, pc.len);
    }
  }

  lemma TakenStays(s: State, t: State, h: Hash)
    requires forall n :: n in s.files && s.files[n] != "" ==> n in t.files && t.files[n] == s.files[n]
    ensures IsTaken(s, h, FULL) ==> IsTaken(t, h, FULL)
    ensures forall name: string :: IsClaimed(s, h, name) ==> IsClaimed(t, h, name)
  {
  }

  lemma SameFilesTaken(s: State, t: State, h: Hash)
    requires t.files == s.files
    ensures IsTaken(s, h, FULL) == IsTaken(t, h, FULL)
  {
  }

  lemma TearKept(s: State, step: Step, h: Hash, torn: bool)
    requires TearInv(s, h, torn)
    ensures TearInv(Next(s, step), h, torn || IsTear(s, step, h))
  {
    hide CallOk, AnswerOk, Advanced, Crashed, Inv, Blocked, IsTaken, IsClaimed;
    var t := Next(s, step);
    InvKept(s, step);
    FilesOnlyGrow(s, step);
    TakenStays(s, t, h);
    if torn {
      BlockedKept(s, t, h, FULL);
    } else {
      match step {
        case Advance(who) =>
          if who < |s.calls| {
            AdvanceNeverTears(s, who, h);
          }
        case Crash(who, cut) =>
          if who < |s.calls| {
            CrashTears(s, who, cut, h);
            CrashLegacy(s, who, cut);
            if IsTear(s, step, h) {
              BlockedKept(s, t, h, FULL);
            }
          }
        case Spawn(_) => SameFilesTaken(s, t, h);
        case MakeDir(_) => SameFilesTaken(s, t, h);
        case OutsideDir(_) => SameFilesTaken(s, t, h);
      }
    }
  }

  lemma {:induction false} TearHolds(s: State, steps: seq<Step>, h: Hash, torn: bool)
    requires TearInv(s, h, torn)
    ensures TearInv(Run(s, steps), h, torn || Torn(s, steps, h))
    decreases |steps|
  {
    hide TearInv, Next, IsTear;
    if steps != [] {
      TearKept(s, steps[0], h, torn);
      TearHolds(Next(s, steps[0]), steps[1..], h, torn || IsTear(s, steps[0], h));
    }
  }

  /**
   * Under any interleaving, every answer that is not an existing directory is claimed by its hash, at length 40
   * at the latest, if and only if no process was killed while writing that hash's length-40 claim with some of
   * it written.
   */
  lemma ClaimedUnlessTorn(s: State, steps: seq<Step>, i: nat)
    requires IsNew(s) && i < |Run(s, steps).answers| && !Run(s, steps).answers[i].found
    ensures var t := Run(s, steps);
            IsClaimed(t, t.answers[i].hash, t.answers[i].name) <==> !Torn(s, steps, t.answers[i].hash)
  {
    hide Run, Torn;
    var t := Run(s, steps);
    var a := t.answers[i];
    TearHolds(s, steps, a.hash, false);
    assert AnswerOk(t, a);
    FullPrefix(a.hash);
  }

  /**
   * A process killed while writing the length-40 file leaves a part of the hash there, and then a later call
   * for it ends with the full hash and no claim: still its own name, but not one any file records.
   */
  lemma KilledWriterLeavesUnclaimed(s: State, who: nat, cut: nat, later: nat)
    requires Inv(s) && who < |s.calls| && s.calls[who].pc == Writing(FULL) && 0 < cut < FULL
    requires later < |s.calls| && later != who && s.calls[later] == Call(s.calls[who].hash, Locking(FULL))
    ensures var h := s.calls[who].hash;
            var t := Run(s, [Crash(who, cut), Advance(later), Advance(later), Advance(later), Advance(later)]);
            t.answers == s.answers + [Answer(h, h, false)] && !IsClaimed(t, h, h)
  {
    var h := s.calls[who].hash;
    FullPrefix(h);
    assert CallOk(s, who);
    var t := Next(s, Crash(who, cut));
    assert t.files[h] == h[..cut] && t.calls[later] == s.calls[later];
    RunFive(s, Crash(who, cut), Advance(later), Advance(later), Advance(later), Advance(later));
    hide Next;
    JunkIsPassedOver(t, later, h);
  }

  lemma JunkIsPassedOver(s: State, who: nat, h: Hash)
    requires who < |s.calls| && s.calls[who] == Call(h, Locking(FULL)) && h !in s.locks
    requires h in s.files && s.files[h] != "" && s.files[h] != h
    ensures var a := Advance(who);
            var t := Next(Next(Next(Next(s, a), a), a), a);
            t.answers == s.answers + [Answer(h, h, false)] && !IsClaimed(t, h, h)
  {
    FullPrefix(h);
    hide Prefix;
    var a := Advance(who);
    var t1 := Next(s, a);
    assert t1.calls[who] == Call(h, Touching(FULL)) && t1.files == s.files && t1.answers == s.answers;
    var t2 := Next(t1, a);
    assert t2.calls[who] == Call(h, Reading(FULL)) && t2.files == s.files && t2.answers == s.answers;
    var t3 := Next(t2, a);
    assert t3.calls[who] == Call(h, Releasing(FULL, false)) && t3.files == s.files && t3.answers == s.answers;
  }

  lemma RunFive(s: State, a: Step, b: Step, c: Step, d: Step, e: Step)
    ensures Run(s, [a, b, c, d, e]) == Next(Next(Next(Next(Next(s, a), b), c), d), e)
  {
    hide Next;
    assert [a, b, c, d, e][1..] == [b, c, d, e] && [b, c, d, e][1..] == [c, d, e];
    assert [c, d, e][1..] == [d, e] && [d, e][1..] == [e] && [e][1..] == [];
    var s4 := Next(Next(Next(Next(s, a), b), c), d);
    assert Run(s4, [e]) == Run(Next(s4, e), []);
    assert Run(Next(Next(s, a), b), [c, d, e]) == Run(Next(Next(Next(s, a), b), c), [d, e]);
  }
}
