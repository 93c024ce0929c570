/**
 * The durable snapshot format of ecs/snapshot_file.hpp: an 8-byte header (magic, layout version),
 * the entity chunk, then one chunk per component of the tuple both directions share.
 *
 * A component is the list of scalar fields its serialize() names, so its codec is the list of their
 * widths. A registry is EnTT's packed storage: live entities, then recycled ones, then one packed
 * pool per component.
 */
module SnapshotCodec {
  import opened Common
  import opened Bytes

  type Shape = seq<nat>

  datatype Slot = Slot(entity: Word, fields: seq<nat>)
  datatype Reg = Reg(alive: seq<Word>, free: seq<Word>, pools: seq<seq<Slot>>)

  datatype FileError = OpenFailed | BadHeader | VersionMismatch | ArchiveError | WriteFailed | RenameFailed

  const MAGIC: Word := 0x504E534B
  const EMPTY := Reg([], [], [])

  predicate Distinct<T(==)>(s: seq<T>) {
    forall i, j :: 0 <= i < j < |s| ==> s[i] != s[j]
  }

  function Entities(pool: seq<Slot>): (es: seq<Word>)
    ensures |es| == |pool|
    ensures forall i :: 0 <= i < |pool| ==> es[i] == pool[i].entity
  {
    seq(|pool|, i requires 0 <= i < |pool| => pool[i].entity)
  }

  predicate Fits(shape: Shape, fields: seq<nat>) {
    |fields| == |shape| && forall i :: 0 <= i < |shape| ==> fields[i] < Pow256(shape[i])
  }

  predicate SoundPool(shape: Shape, alive: seq<Word>, pool: seq<Slot>) {
    && Distinct(Entities(pool))
    && forall i :: 0 <= i < |pool| ==> pool[i].entity in alive && Fits(shape, pool[i].fields)
  }

  predicate SoundPools(shapes: seq<Shape>, alive: seq<Word>, pools: seq<seq<Slot>>) {
    if shapes == [] then pools == []
    else pools != [] && SoundPool(shapes[0], alive, pools[0]) && SoundPools(shapes[1..], alive, pools[1..])
  }

  /** What EnTT keeps of any registry: no entity twice, and every pool entry belongs to a live one. */
  predicate Sound(shapes: seq<Shape>, r: Reg) {
    Distinct(r.alive + r.free) && SoundPools(shapes, r.alive, r.pools)
  }

  /** The 32-bit counts in front of each chunk can express the registry. */
  predicate Countable(r: Reg) {
    |r.alive| + |r.free| < 0x1_0000_0000 && forall i :: 0 <= i < |r.pools| ==> |r.pools[i]| < 0x1_0000_0000
  }

  predicate WellFormed(shapes: seq<Shape>, r: Reg) {
    Sound(shapes, r) && Countable(r)
  }

  // ---------------------------------------------------------------- writing

  function PutWord(n: Word): Data {
    WordWidth(); Put(4, n)
  }

  function PutWords(ws: seq<Word>): Data {
    if ws == [] then [] else PutWord(ws[0]) + PutWords(ws[1..])
  }

  function PutFields(shape: Shape, fields: seq<nat>): Data
    requires Fits(shape, fields)
  {
    if shape == [] then [] else Put(shape[0], fields[0]) + PutFields(shape[1..], fields[1..])
  }

  predicate AllFit(shape: Shape, slots: seq<Slot>) {
    forall i :: 0 <= i < |slots| ==> Fits(shape, slots[i].fields)
  }

  function PutSlots(shape: Shape, slots: seq<Slot>): Data
    requires AllFit(shape, slots)
  {
    if slots == [] then []
    else PutWord(slots[0].entity) + PutFields(shape, slots[0].fields) + PutSlots(shape, slots[1..])
  }

  function PutPool(shape: Shape, slots: seq<Slot>): Data
    requires AllFit(shape, slots) && |slots| < 0x1_0000_0000
  {
    PutWord(|slots|) + PutSlots(shape, slots)
  }

  predicate Writable(shapes: seq<Shape>, pools: seq<seq<Slot>>) {
    if shapes == [] then pools == []
    else pools != [] && AllFit(shapes[0], pools[0]) && |pools[0]| < 0x1_0000_0000 && Writable(shapes[1..], pools[1..])
  }

  lemma {:induction false} SoundIsWritable(shapes: seq<Shape>, alive: seq<Word>, pools: seq<seq<Slot>>)
    requires SoundPools(shapes, alive, pools)
    requires forall i :: 0 <= i < |pools| ==> |pools[i]| < 0x1_0000_0000
    ensures Writable(shapes, pools)
  {
    if shapes != [] {
      SoundIsWritable(shapes[1..], alive, pools[1..]);
    }
  }

  function PutTail(shapes: seq<Shape>, pools: seq<seq<Slot>>): Data
    requires Writable(shapes, pools)
  {
    if shapes == [] then [] else PutPool(shapes[0], pools[0]) + PutTail(shapes[1..], pools[1..])
  }

  function PutEntities(r: Reg): Data
    requires Countable(r)
  {
    PutWord(|r.alive| + |r.free|) + PutWord(|r.alive|) + PutWords(r.alive + r.free)
  }

  function Encode(shapes: seq<Shape>, r: Reg): Data
    requires WellFormed(shapes, r)
  {
    SoundIsWritable(shapes, r.alive, r.pools);
    PutEntities(r) + PutTail(shapes, r.pools)
  }

  function FileBytes(version: Word, payload: Data): (b: Data)
    ensures |b| == 8 + |payload|
  {
    PutWord(MAGIC) + PutWord(version) + payload
  }

  // ---------------------------------------------------------------- reading

  function TakeWords(n: nat, b: Data): Parsed<seq<Word>> {
    if n == 0 then Got([], b)
    else match Take(4, b)
      case Thrown => Thrown
      case Got(w, rest) =>
        WordWidth();
        match TakeWords(n - 1, rest)
        case Thrown => Thrown
        case Got(ws, rest') => Got([w] + ws, rest')
  }

  function TakeFields(shape: Shape, b: Data): (r: Parsed<seq<nat>>)
    ensures r.Got? ==> Fits(shape, r.value)
  {
    if shape == [] then Got([], b)
    else match Take(shape[0], b)
      case Thrown => Thrown
      case Got(v, rest) =>
        match TakeFields(shape[1..], rest)
        case Thrown => Thrown
        case Got(vs, rest') => Got([v] + vs, rest')
  }

  function Without(s: seq<Word>, e: Word): (t: seq<Word>)
    ensures forall x :: x in t <==> x in s && x != e
    ensures e !in s ==> t == s
  {
    if s == [] then [] else if s[0] == e then Without(s[1..], e) else [s[0]] + Without(s[1..], e)
  }

  /** The loader's emplace-if-unknown: an entity no live entity matches comes to life. */
  function Revive(r: Reg, e: Word): Reg {
    if e in r.alive then r else r.(alive := r.alive + [e], free := Without(r.free, e))
  }

  /** The loader's loop over one component chunk; a second value for one entity is an error. */
  function TakeSlots(shape: Shape, n: nat, r: Reg, pool: seq<Slot>, b: Data): Parsed<(Reg, seq<Slot>)>
    decreases n
  {
    if n == 0 then Got((r, pool), b)
    else match Take(4, b)
      case Thrown => Thrown
      case Got(e, b1) =>
        match TakeFields(shape, b1)
        case Thrown => Thrown
        case Got(fields, b2) =>
          WordWidth();
          if e in Entities(pool) then Thrown
          else TakeSlots(shape, n - 1, Revive(r, e), pool + [Slot(e, fields)], b2)
  }

  function TakeTail(shapes: seq<Shape>, r: Reg, b: Data): Parsed<Reg> {
    if shapes == [] then Got(r, b)
    else match Take(4, b)
      case Thrown => Thrown
      case Got(n, b1) =>
        match TakeSlots(shapes[0], n, r, [], b1)
        case Thrown => Thrown
        case Got((r', pool), b2) => TakeTail(shapes[1..], r'.(pools := r'.pools + [pool]), b2)
  }

  function TakeEntities(b: Data): Parsed<Reg> {
    match Take(4, b)
    case Thrown => Thrown
    case Got(n, b1) =>
      match Take(4, b1)
      case Thrown => Thrown
      case Got(used, b2) =>
        match TakeWords(n, b2)
        case Thrown => Thrown
        case Got(ws, b3) =>
          if used > |ws| || !Distinct(ws) then Thrown else Got(Reg(ws[..used], ws[used..], []), b3)
  }

  function Decode(shapes: seq<Shape>, b: Data): Parsed<Reg> {
    match TakeEntities(b)
    case Thrown => Thrown
    case Got(r, rest) => TakeTail(shapes, r, rest)
  }

  /** read_snapshot_file() as a function of what opening the path yielded. */
  function Read(shapes: seq<Shape>, file: Option<Data>, expected: Word): Result<Reg, FileError> {
    match file
    case None => Err(OpenFailed)
    case Some(b) =>
      match Take(4, b)
      case Thrown => Err(BadHeader)
      case Got(magic, b1) =>
        match Take(4, b1)
        case Thrown => Err(BadHeader)
        case Got(version, b2) =>
          if magic != MAGIC then Err(BadHeader)
          else if version != expected then Err(VersionMismatch)
          else match Decode(shapes, b2)
            case Thrown => Err(ArchiveError)
            case Got(r, _) => Ok(r)
  }

  // ---------------------------------------------------------------- round trip

  lemma Shift<T>(a: seq<T>, b: seq<T>)
    requires b != []
    ensures a + [b[0]] + b[1..] == a + b
  {
  }

  lemma TakePutWord(n: Word, s: Data)
    ensures Take(4, PutWord(n) + s) == Got(n, s)
  {
    WordWidth();
    TakePut(4, n, s);
  }

  lemma {:induction false} WordsBack(ws: seq<Word>, s: Data)
    ensures TakeWords(|ws|, PutWords(ws) + s) == Got(ws, s)
  {
    if ws == [] {
      assert PutWords(ws) + s == s;
    } else {
      var rest := PutWords(ws[1..]) + s;
      assert PutWords(ws) + s == PutWord(ws[0]) + rest;
      TakePutWord(ws[0], rest);
      WordsBack(ws[1..], s);
      assert [ws[0]] + ws[1..] == ws;
    }
  }

  lemma {:induction false} FieldsBack(shape: Shape, fields: seq<nat>, s: Data)
    requires Fits(shape, fields)
    ensures TakeFields(shape, PutFields(shape, fields) + s) == Got(fields, s)
  {
    if shape == [] {
      assert PutFields(shape, fields) + s == s;
    } else {
      var rest := PutFields(shape[1..], fields[1..]) + s;
      assert PutFields(shape, fields) + s == Put(shape[0], fields[0]) + rest;
      TakePut(shape[0], fields[0], rest);
      FieldsBack(shape[1..], fields[1..], s);
      assert [fields[0]] + fields[1..] == fields;
    }
  }

  lemma SlotBack(shape: Shape, slot: Slot, s: Data)
    requires Fits(shape, slot.fields)
    ensures Take(4, PutWord(slot.entity) + PutFields(shape, slot.fields) + s) ==
            Got(slot.entity, PutFields(shape, slot.fields) + s)
    ensures TakeFields(shape, PutFields(shape, slot.fields) + s) == Got(slot.fields, s)
  {
    Assoc(PutWord(slot.entity), PutFields(shape, slot.fields), s);
    TakePutWord(slot.entity, PutFields(shape, slot.fields) + s);
    FieldsBack(shape, slot.fields, s);
  }

  lemma NewcomerFresh(pool: seq<Slot>, slots: seq<Slot>)
    requires slots != [] && Distinct(Entities(pool + slots))
    ensures slots[0].entity !in Entities(pool)
  {
    var all := Entities(pool + slots);
    assert all[|pool|] == slots[0].entity;
    assert forall i :: 0 <= i < |pool| ==> all[i] == Entities(pool)[i];
  }

  /** One turn of the loader's loop over a component chunk. */
  lemma SlotStep(shape: Shape, n: nat, r: Reg, pool: seq<Slot>, b: Data, slot: Slot, b1: Data, b2: Data)
    requires n > 0 && Take(4, b) == Got(slot.entity, b1) && TakeFields(shape, b1) == Got(slot.fields, b2)
    requires slot.entity !in Entities(pool)
    ensures TakeSlots(shape, n, r, pool, b) == TakeSlots(shape, n - 1, Revive(r, slot.entity), pool + [slot], b2)
  {
    assert Slot(slot.entity, slot.fields) == slot;
  }

  lemma PutSlotsSplit(shape: Shape, slots: seq<Slot>, s: Data)
    requires slots != [] && AllFit(shape, slots)
    ensures PutSlots(shape, slots) + s ==
            PutWord(slots[0].entity) + PutFields(shape, slots[0].fields) + (PutSlots(shape, slots[1..]) + s)
  {
    hide PutFields, PutWord;
    Assoc(PutWord(slots[0].entity) + PutFields(shape, slots[0].fields), PutSlots(shape, slots[1..]), s);
  }

  lemma NoSlotsBack(shape: Shape, r: Reg, pool: seq<Slot>, s: Data)
    ensures TakeSlots(shape, 0, r, pool, PutSlots(shape, []) + s) == Got((r, pool + []), s)
  {
    assert PutSlots(shape, []) + s == s;
    assert pool + [] == pool;
  }

  lemma RestFits(shape: Shape, slots: seq<Slot>, r: Reg)
    requires slots != [] && AllFit(shape, slots)
    requires forall i :: 0 <= i < |slots| ==> slots[i].entity in r.alive
    ensures Fits(shape, slots[0].fields) && AllFit(shape, slots[1..])
    ensures Revive(r, slots[0].entity) == r
    ensures forall i :: 0 <= i < |slots[1..]| ==> slots[1..][i].entity in r.alive
  {
    hide Fits;
    assert forall i :: 0 <= i < |slots[1..]| ==> slots[1..][i] == slots[i + 1];
  }

  /** The loop's first turn takes the first slot and leaves the rest of the chunk. */
  lemma FirstSlotBack(shape: Shape, slots: seq<Slot>, r: Reg, pool: seq<Slot>, s: Data)
    requires slots != [] && AllFit(shape, slots) && Distinct(Entities(pool + slots))
    requires forall i :: 0 <= i < |slots| ==> slots[i].entity in r.alive
    ensures AllFit(shape, slots[1..])
    ensures TakeSlots(shape, |slots|, r, pool, PutSlots(shape, slots) + s) ==
            TakeSlots(shape, |slots[1..]|, r, pool + [slots[0]], PutSlots(shape, slots[1..]) + s)
  {
    RestFits(shape, slots, r);
    hide TakeSlots, PutSlots, TakeFields, PutFields, PutWord, Take, Distinct, Entities, Revive, Fits, AllFit;
    var rest := PutSlots(shape, slots[1..]) + s;
    PutSlotsSplit(shape, slots, s);
    SlotBack(shape, slots[0], rest);
    NewcomerFresh(pool, slots);
    SlotStep(shape, |slots|, r, pool, PutSlots(shape, slots) + s, slots[0], PutFields(shape, slots[0].fields) + rest, rest);
  }

  lemma {:induction false} SlotsBack(shape: Shape, slots: seq<Slot>, r: Reg, pool: seq<Slot>, s: Data)
    requires AllFit(shape, slots)
    requires Distinct(Entities(pool + slots))
    requires forall i :: 0 <= i < |slots| ==> slots[i].entity in r.alive
    ensures TakeSlots(shape, |slots|, r, pool, PutSlots(shape, slots) + s) == Got((r, pool + slots), s)
    decreases |slots|
  {
    hide TakeSlots, PutSlots, Distinct, Entities, Revive, Fits, AllFit;
    if slots == [] {
      NoSlotsBack(shape, r, pool, s);
    } else {
      RestFits(shape, slots, r);
      FirstSlotBack(shape, slots, r, pool, s);
      Shift(pool, slots);
      SlotsBack(shape, slots[1..], r, pool + [slots[0]], s);
    }
  }

  lemma PoolBack(shape: Shape, pool: seq<Slot>, r: Reg, s: Data)
    requires SoundPool(shape, r.alive, pool) && |pool| < 0x1_0000_0000
    ensures Take(4, PutPool(shape, pool) + s) == Got(|pool|, PutSlots(shape, pool) + s)
    ensures TakeSlots(shape, |pool|, r, [], PutSlots(shape, pool) + s) == Got((r, pool), s)
  {
    assert PutPool(shape, pool) + s == PutWord(|pool|) + (PutSlots(shape, pool) + s);
    TakePutWord(|pool|, PutSlots(shape, pool) + s);
    assert [] + pool == pool;
    SlotsBack(shape, pool, r, [], s);
  }

  /** One turn of the loader's fold over the component tuple. */
  lemma TailStep(shapes: seq<Shape>, r: Reg, b: Data, n: nat, b1: Data, r': Reg, pool: seq<Slot>, b2: Data)
    requires shapes != [] && Take(4, b) == Got(n, b1)
    requires TakeSlots(shapes[0], n, r, [], b1) == Got((r', pool), b2)
    ensures TakeTail(shapes, r, b) == TakeTail(shapes[1..], r'.(pools := r'.pools + [pool]), b2)
  {
  }

  lemma PutTailSplit(shapes: seq<Shape>, pools: seq<seq<Slot>>, s: Data)
    requires shapes != [] && Writable(shapes, pools) 
    ensures PutTail(shapes, pools) + s == PutPool(shapes[0], pools[0]) + (PutTail(shapes[1..], pools[1..]) + s)
  {
    Assoc(PutPool(shapes[0], pools[0]), PutTail(shapes[1..], pools[1..]), s);
  }

  lemma HeadBack(shapes: seq<Shape>, r: Reg, pools: seq<seq<Slot>>, s: Data)
    requires shapes != [] && Writable(shapes, pools)
    requires SoundPool(shapes[0], r.alive, pools[0])
    ensures TakeTail(shapes, r, PutTail(shapes, pools) + s) ==
            TakeTail(shapes[1..], r.(pools := r.pools + [pools[0]]), PutTail(shapes[1..], pools[1..]) + s)
  {
    var rest := PutTail(shapes[1..], pools[1..]) + s;
    PutTailSplit(shapes, pools, s);
    PoolBack(shapes[0], pools[0], r, rest);
    TailStep(shapes, r, PutTail(shapes, pools) + s, |pools[0]|, PutSlots(shapes[0], pools[0]) + rest, r, pools[0], rest);
  }

  lemma {:induction false} TailBack(shapes: seq<Shape>, r: Reg, pools: seq<seq<Slot>>, s: Data)
    requires Writable(shapes, pools) && SoundPools(shapes, r.alive, pools)
    ensures TakeTail(shapes, r, PutTail(shapes, pools) + s) == Got(r.(pools := r.pools + pools), s)
    decreases |shapes|
  {
    if shapes == [] {
      assert PutTail(shapes, pools) + s == s;
      assert r.pools + pools == r.pools;
    } else {
      HeadBack(shapes, r, pools, s);
      var r' := r.(pools := r.pools + [pools[0]]);
      TailBack(shapes[1..], r', pools[1..], s);
      assert r'.pools + pools[1..] == r.pools + pools;
    }
  }

  lemma EntitiesBack(r: Reg, s: Data)
    requires Countable(r) && Distinct(r.alive + r.free)
    ensures TakeEntities(PutEntities(r) + s) == Got(Reg(r.alive, r.free, []), s)
  {
    var ws := r.alive + r.free;
    var b2 := PutWords(ws) + s;
    var b1 := PutWord(|r.alive|) + b2;
    assert PutEntities(r) + s == PutWord(|ws|) + b1;
    TakePutWord(|ws|, b1);
    TakePutWord(|r.alive|, b2);
    WordsBack(ws, s);
    assert ws[..|r.alive|] == r.alive && ws[|r.alive|..] == r.free;
  }

  /** Decoding gives the registry back and stops exactly at its last byte. */
  lemma DecodeEncode(shapes: seq<Shape>, r: Reg, junk: Data)
    requires WellFormed(shapes, r)
    ensures Decode(shapes, Encode(shapes, r) + junk) == Got(r, junk)
  {
    SoundIsWritable(shapes, r.alive, r.pools);
    var tail := PutTail(shapes, r.pools) + junk;
    assert Encode(shapes, r) + junk == PutEntities(r) + tail;
    EntitiesBack(r, tail);
    TailBack(shapes, Reg(r.alive, r.free, []), r.pools, junk);
    assert [] + r.pools == r.pools;
  }

  lemma HeaderBack(version: Word, payload: Data)
    ensures Take(4, FileBytes(version, payload)) == Got(MAGIC, PutWord(version) + payload)
    ensures Take(4, PutWord(version) + payload) == Got(version, payload)
  {
    Assoc(PutWord(MAGIC), PutWord(version), payload);
    TakePutWord(MAGIC, PutWord(version) + payload);
    TakePutWord(version, payload);
  }

  /** Reading a written file restores the registry it was written from, whatever follows it. */
  lemma RoundTrip(shapes: seq<Shape>, r: Reg, version: Word, junk: Data)
    requires WellFormed(shapes, r)
    ensures Read(shapes, Some(FileBytes(version, Encode(shapes, r)) + junk), version) == Ok(r)
  {
    var payload := Encode(shapes, r) + junk;
    Assoc(PutWord(MAGIC) + PutWord(version), Encode(shapes, r), junk);
    HeaderBack(version, payload);
    DecodeEncode(shapes, r, junk);
  }

  // ---------------------------------------------------------------- truncation

  lemma {:induction false} WordsExtend(n: nat, b: Data, s: Data)
    requires TakeWords(n, b).Got?
    ensures TakeWords(n, b + s) == Got(TakeWords(n, b).value, TakeWords(n, b).rest + s)
  {
    if n != 0 {
      TakeExtends(4, b, s);
      WordsExtend(n - 1, Take(4, b).rest, s);
    }
  }

  lemma {:induction false} FieldsExtend(shape: Shape, b: Data, s: Data)
    requires TakeFields(shape, b).Got?
    ensures TakeFields(shape, b + s) == Got(TakeFields(shape, b).value, TakeFields(shape, b).rest + s)
  {
    if shape != [] {
      TakeExtends(shape[0], b, s);
      FieldsExtend(shape[1..], Take(shape[0], b).rest, s);
    }
  }

  lemma {:induction false} SlotsExtend(shape: Shape, n: nat, r: Reg, pool: seq<Slot>, b: Data, s: Data)
    requires TakeSlots(shape, n, r, pool, b).Got?
    ensures TakeSlots(shape, n, r, pool, b + s) ==
            Got(TakeSlots(shape, n, r, pool, b).value, TakeSlots(shape, n, r, pool, b).rest + s)
    decreases n
  {
    if n != 0 {
      var Got(e, b1) := Take(4, b);
      var Got(fields, b2) := TakeFields(shape, b1);
      TakeExtends(4, b, s);
      FieldsExtend(shape, b1, s);
      WordWidth();
      SlotsExtend(shape, n - 1, Revive(r, e), pool + [Slot(e, fields)], b2, s);
    }
  }

  lemma {:induction false} TailExtends(shapes: seq<Shape>, r: Reg, b: Data, s: Data)
    requires TakeTail(shapes, r, b).Got?
    ensures TakeTail(shapes, r, b + s) == Got(TakeTail(shapes, r, b).value, TakeTail(shapes, r, b).rest + s)
    decreases |shapes|
  {
    if shapes != [] {
      var Got(n, b1) := Take(4, b);
      var Got((r', pool), b2) := TakeSlots(shapes[0], n, r, [], b1);
      TakeExtends(4, b, s);
      SlotsExtend(shapes[0], n, r, [], b1, s);
      TailExtends(shapes[1..], r'.(pools := r'.pools + [pool]), b2, s);
    }
  }

  /** The decoder never looks past what it consumes. */
  lemma DecodeExtends(shapes: seq<Shape>, b: Data, s: Data)
    requires Decode(shapes, b).Got?
    ensures Decode(shapes, b + s) == Got(Decode(shapes, b).value, Decode(shapes, b).rest + s)
  {
    var Got(n, b1) := Take(4, b);
    var Got(used, b2) := Take(4, b1);
    var Got(ws, b3) := TakeWords(n, b2);
    TakeExtends(4, b, s);
    TakeExtends(4, b1, s);
    WordsExtend(n, b2, s);
    TailExtends(shapes, Reg(ws[..used], ws[used..], []), b3, s);
  }

  /** No proper prefix of an encoding decodes. */
  lemma DecodeRefusesPrefix(shapes: seq<Shape>, r: Reg, k: nat)
    requires WellFormed(shapes, r) && k < |Encode(shapes, r)|
    ensures Decode(shapes, Encode(shapes, r)[..k]).Thrown?
  {
    hide Decode, Encode, WellFormed;
    var full := Encode(shapes, r);
    var cut, more := full[..k], full[k..];
    if Decode(shapes, cut).Got? {
      DecodeExtends(shapes, cut, more);
      assert cut + more == full && full + [] == full;
      DecodeEncode(shapes, r, []);
      assert false;
    }
  }

  /** Every strict prefix of a written file is refused, and the error tells which part was cut. */
  lemma TruncationRefused(shapes: seq<Shape>, r: Reg, version: Word, k: nat)
    requires WellFormed(shapes, r)
    requires k < |FileBytes(version, Encode(shapes, r))|
    ensures Read(shapes, Some(FileBytes(version, Encode(shapes, r))[..k]), version) ==
            Err(if k < 8 then BadHeader else ArchiveError)
  {
    var payload := Encode(shapes, r);
    var cut := FileBytes(version, payload)[..k];
    if k < 8 {
      if k >= 4 {
        assert |Take(4, cut).rest| < 4;
      }
    } else {
      assert cut == FileBytes(version, payload[..k - 8]);
      HeaderBack(version, payload[..k - 8]);
      DecodeRefusesPrefix(shapes, r, k - 8);
    }
  }

  /**
   * For every byte string the outcome is fixed by length, magic, version and decodability, in that
   * order; the magic reads "KSNP" on disk.
   */
  lemma ErrorOrder(shapes: seq<Shape>, b: Data, expected: Word)
    ensures Read(shapes, Some(b), expected) ==
            if |b| < 8 || b[..4] != [0x4B, 0x53, 0x4E, 0x50] then Err(BadHeader)
            else if b[4..8] != PutWord(expected) then Err(VersionMismatch)
            else match Decode(shapes, b[8..]) case Thrown => Err(ArchiveError) case Got(r, _) => Ok(r)
  {
    if |b| >= 8 {
      var b1 := Take(4, b).rest;
      assert b1[4..] == b[8..] && b1[..4] == b[4..8];
      MagicText();
      WordTextInjective(b, MAGIC);
      WordTextInjective(b1, expected);
    }
  }

  lemma WordTextInjective(b: Data, n: Word)
    requires |b| >= 4
    ensures Take(4, b).value == n <==> b[..4] == PutWord(n)
  {
    WordWidth();
    PutTake(4, b);
    if b[..4] == PutWord(n) {
      assert b == PutWord(n) + b[4..];
      TakePutWord(n, b[4..]);
    }
  }

  lemma MagicText()
    ensures PutWord(MAGIC) == [0x4B, 0x53, 0x4E, 0x50]
  {
    WordWidth();
    assert Put(1, 0x50) == [0x50];
    assert Put(2, 0x504E) == [0x4E] + Put(1, 0x50);
    assert Put(3, 0x504E53) == [0x53] + Put(2, 0x504E);
    assert Put(4, 0x504E534B) == [0x4B] + Put(3, 0x504E53);
  }

  // ---------------------------------------------------------------- soundness of any restore

  lemma {:induction false} WithoutDistinct(s: seq<Word>, e: Word)
    requires Distinct(s)
    ensures Distinct(Without(s, e))
  {
    if s != [] {
      WithoutDistinct(s[1..], e);
      var rest := Without(s[1..], e);
      assert s[0] !in rest;
      assert Without(s, e) == rest || Without(s, e) == [s[0]] + rest;
    }
  }

  lemma DistinctConcat(a: seq<Word>, b: seq<Word>)
    ensures Distinct(a + b) <==> Distinct(a) && Distinct(b) && forall x :: x in a ==> x !in b
  {
    var c := a + b;
    if Distinct(a) && Distinct(b) && forall x :: x in a ==> x !in b {
      forall i, j | 0 <= i < j < |c|
        ensures c[i] != c[j]
      {
        if i < |a| <= j {
          assert c[i] in a && c[j] in b;
        } else if |a| <= i {
          assert b[i - |a|] != b[j - |a|];
        }
      }
    }
    if Distinct(c) {
      assert forall i :: 0 <= i < |a| ==> c[i] == a[i];
      forall i, j | 0 <= i < j < |b|
        ensures b[i] != b[j]
      {
        assert c[|a| + i] != c[|a| + j];
      }
      forall i, j | 0 <= i < |a| && 0 <= j < |b|
        ensures a[i] != b[j]
      {
        assert c[i] != c[|a| + j];
      }
    }
  }

  lemma ReviveSound(r: Reg, e: Word)
    requires Distinct(r.alive + r.free)
    ensures var r' := Revive(r, e);
            && Distinct(r'.alive + r'.free) && e in r'.alive && r'.pools == r.pools
            && forall x :: x in r.alive ==> x in r'.alive
  {
    var r' := Revive(r, e);
    if e !in r.alive {
      DistinctConcat(r.alive, r.free);
      WithoutDistinct(r.free, e);
      DistinctConcat(r'.alive, r'.free);
    }
  }

  lemma {:induction false} SlotsSound(shape: Shape, n: nat, r: Reg, pool: seq<Slot>, b: Data)
    requires Distinct(r.alive + r.free) && SoundPool(shape, r.alive, pool)
    requires TakeSlots(shape, n, r, pool, b).Got?
    ensures var (r', pool') := TakeSlots(shape, n, r, pool, b).value;
            && Distinct(r'.alive + r'.free) && SoundPool(shape, r'.alive, pool') && r'.pools == r.pools
            && forall x :: x in r.alive ==> x in r'.alive
    decreases n
  {
    if n != 0 {
      var Got(e, b1) := Take(4, b);
      var Got(fields, b2) := TakeFields(shape, b1);
      WordWidth();
      ReviveSound(r, e);
      var grown := pool + [Slot(e, fields)];
      assert forall i :: 0 <= i < |pool| ==> grown[i] == pool[i] && Entities(grown)[i] == Entities(pool)[i];
      SlotsSound(shape, n - 1, Revive(r, e), grown, b2);
    }
  }

  lemma {:induction false} PoolAppended(shapes: seq<Shape>, before: seq<Word>, pools: seq<seq<Slot>>, shape: Shape, alive: seq<Word>, pool: seq<Slot>)
    requires SoundPools(shapes, before, pools) && SoundPool(shape, alive, pool)
    requires forall x :: x in before ==> x in alive
    ensures SoundPools(shapes + [shape], alive, pools + [pool])
  {
    if shapes != [] {
      PoolAppended(shapes[1..], before, pools[1..], shape, alive, pool);
      assert (shapes + [shape])[1..] == shapes[1..] + [shape];
      assert (pools + [pool])[1..] == pools[1..] + [pool];
    }
  }

  lemma PoolSound(done: seq<Shape>, shape: Shape, n: nat, r: Reg, b: Data)
    requires Sound(done, r) && TakeSlots(shape, n, r, [], b).Got?
    ensures var (r', pool) := TakeSlots(shape, n, r, [], b).value;
            Sound(done + [shape], r'.(pools := r'.pools + [pool]))
  {
    SlotsSound(shape, n, r, [], b);
    var (r', pool) := TakeSlots(shape, n, r, [], b).value;
    PoolAppended(done, r.alive, r.pools, shape, r'.alive, pool);
  }

  lemma HeadSound(done: seq<Shape>, shapes: seq<Shape>, r: Reg, b: Data) returns (r1: Reg, rest: Data)
    requires shapes != [] && Sound(done, r) && TakeTail(shapes, r, b).Got?
    ensures Sound(done + [shapes[0]], r1)
    ensures TakeTail(shapes, r, b) == TakeTail(shapes[1..], r1, rest)
  {
    var Got(n, b1) := Take(4, b);
    var Got((r', pool), b2) := TakeSlots(shapes[0], n, r, [], b1);
    TailStep(shapes, r, b, n, b1, r', pool, b2);
    PoolSound(done, shapes[0], n, r, b1);
    r1, rest := r'.(pools := r'.pools + [pool]), b2;
  }

  lemma {:induction false} TailSound(done: seq<Shape>, shapes: seq<Shape>, r: Reg, b: Data)
    requires Sound(done, r) && TakeTail(shapes, r, b).Got?
    ensures Sound(done + shapes, TakeTail(shapes, r, b).value)
    decreases |shapes|
  {
    if shapes == [] {
      assert done + shapes == done;
    } else {
      hide Sound, TakeTail;
      var r1, rest := HeadSound(done, shapes, r, b);
      TailSound(done + [shapes[0]], shapes[1..], r1, rest);
      Shift(done, shapes);
    }
  }

  /** Whatever bytes a file holds, a restore that succeeds leaves a sound registry. */
  lemma RestoreIsSound(shapes: seq<Shape>, file: Option<Data>, expected: Word)
    requires Read(shapes, file, expected).Ok?
    ensures Sound(shapes, Read(shapes, file, expected).value)
  {
    var b := file.value[8..];
    assert Take(4, Take(4, file.value).rest).rest == b;
    var ws := TakeWords(Take(4, b).value, Take(4, Take(4, b).rest).rest).value;
    var used := Take(4, Take(4, b).rest).value;
    assert ws[..used] + ws[used..] == ws;
    TailSound([], shapes, TakeEntities(b).value, TakeEntities(b).rest);
    assert [] + shapes == shapes;
  }
}
