/**
 * The bytes of the app's own state file: where each count, entity and counter stands, whatever run wrote it.
 */
module StateFile {
  import opened Bytes
  import opened SnapshotCodec
  import opened WriterSteps
  import opened AppState
  import opened SnapshotProtocol
  import opened SnapshotGuarantees

  function Power(n: nat): (p: nat)
    ensures p > 0
  {
    if n == 0 then 1 else Power(n - 1) * 256
  }

  lemma DivTwice(v: nat, p: nat)
    requires p > 0
    ensures (v / 256) / p == v / (256 * p)
  {
    var q, r := v / 256, v % 256;
    var a, b := q / p, q % p;
    assert v == 256 * (p * a + b) + r;
    assert v == (256 * p) * a + (256 * b + r);
    assert 256 * b + r < 256 * p;
    DivUnique(v, 256 * p, a, 256 * b + r);
  }

  lemma MultipleIsFar(d: nat, k: int)
    ensures k >= 1 ==> d * k >= d
    ensures k <= -1 ==> d * k <= 0 - d
  {
  }

  lemma DivUnique(v: nat, d: nat, q: nat, r: nat)
    requires d > 0 && v == d * q + r && r < d
    ensures v / d == q
  {
    var k := v / d - q;
    assert d * k == r - v % d;
    MultipleIsFar(d, k);
  }

  lemma {:induction false} PowerStep(i: nat)
    requires i > 0
    ensures Power(i) == 256 * Power(i - 1)
  {
  }

  /** Byte `i` of a number is its digit of weight 256^i: least significant first. */
  lemma {:induction false} LeastFirst(w: nat, v: nat, i: nat)
    requires v < Pow256(w) && i < w
    ensures Put(w, v)[i] == (v / Power(i)) % 256
    decreases w
  {
    if i == 0 {
      assert Power(0) == 1 && v / 1 == v;
    } else {
      LeastFirst(w - 1, v / 256, i - 1);
      DivTwice(v, Power(i - 1));
      PowerStep(i);
    }
  }

  lemma FourWords(a: Word, b: Word, c: Word, d: Word)
    ensures PutWords([a, b, c, d]) == PutWord(a) + (PutWord(b) + (PutWord(c) + PutWord(d)))
  {
    assert [a, b, c, d][1..] == [b, c, d] && [b, c, d][1..] == [c, d] && [c, d][1..] == [d] && [d][1..] == [];
    assert PutWords([d]) == PutWord(d) + PutWords([]);
    assert PutWords([c, d]) == PutWord(c) + PutWords([d]);
    assert PutWords([b, c, d]) == PutWord(b) + PutWords([c, d]);
  }

  lemma OneField(n: nat)
    requires n < COUNTER_WRAP
    ensures Pow256(8) == COUNTER_WRAP && Fits(HEARTBEAT, [n]) && PutFields(HEARTBEAT, [n]) == Put(8, n)
  {
    WordWidth();
    assert HEARTBEAT[1..] == [] && [n][1..] == [];
    var none: seq<nat> := [];
    assert PutFields([], none) == [];
  }

  /** One heartbeat's entry: its entity and its 64-bit counter. */
  function Beat(e: Word, n: nat): (b: Data)
    requires n < COUNTER_WRAP
    ensures |b| == 12
  {
    WordWidth(); PutWord(e) + Put(8, n)
  }

  lemma ThreeBeats(n: nat)
    requires n < COUNTER_WRAP
    ensures var pool := [Slot(0, [n]), Slot(1, [n]), Slot(2, [n])];
            AllFit(HEARTBEAT, pool) && PutPool(HEARTBEAT, pool) == PutWord(3) + (Beat(0, n) + (Beat(1, n) + Beat(2, n)))
  {
    hide PutFields, PutWord, Fits;
    OneField(n);
    var a, b, c := Slot(0, [n]), Slot(1, [n]), Slot(2, [n]);
    assert [a, b, c][1..] == [b, c] && [b, c][1..] == [c] && [c][1..] == [];
    assert AllFit(HEARTBEAT, [c]) && AllFit(HEARTBEAT, [b, c]) && AllFit(HEARTBEAT, [a, b, c]);
    assert PutSlots(HEARTBEAT, []) == [];
    assert PutSlots(HEARTBEAT, [c]) == Beat(2, n);
    assert PutSlots(HEARTBEAT, [b, c]) == Beat(1, n) + PutSlots(HEARTBEAT, [c]);
    assert PutSlots(HEARTBEAT, [a, b, c]) == Beat(0, n) + PutSlots(HEARTBEAT, [b, c]);
  }

  lemma OneSlot(shape: Shape, e: Word, fields: seq<nat>)
    requires Fits(shape, fields)
    ensures AllFit(shape, [Slot(e, fields)])
    ensures PutPool(shape, [Slot(e, fields)]) == PutWord(1) + (PutWord(e) + PutFields(shape, fields))
  {
    hide PutFields, PutWord;
    assert [Slot(e, fields)][1..] == [];
    assert PutSlots(shape, []) == [];
  }

  lemma ThreePools(a: seq<Slot>, b: seq<Slot>, c: seq<Slot>)
    requires Writable(SHAPES, [a, b, c])
    requires AllFit(HEARTBEAT, a) && AllFit(TRANSFORM, b) && AllFit(FOLLOW, c)
    requires |a| < 0x1_0000_0000 && |b| < 0x1_0000_0000 && |c| < 0x1_0000_0000
    ensures PutTail(SHAPES, [a, b, c]) == PutPool(HEARTBEAT, a) + (PutPool(TRANSFORM, b) + PutPool(FOLLOW, c))
  {
    hide PutPool, AllFit;
    assert SHAPES[1..] == [TRANSFORM, FOLLOW] && [TRANSFORM, FOLLOW][1..] == [FOLLOW] && [FOLLOW][1..] == [];
    assert [a, b, c][1..] == [b, c] && [b, c][1..] == [c] && [c][1..] == [];
    assert Writable([], []) && Writable([FOLLOW], [c]) && Writable([TRANSFORM, FOLLOW], [b, c]);
    assert PutTail([FOLLOW], [c]) == PutPool(FOLLOW, c) + PutTail([], []);
    assert PutTail([TRANSFORM, FOLLOW], [b, c]) == PutPool(TRANSFORM, b) + PutTail([FOLLOW], [c]);
  }

  /** What the app's registry is written as: every count, id and counter in its place. */
  lemma EncodedLayout(r: Reg, n: nat)
    requires Populated(r, n)
    ensures WellFormed(SHAPES, r)
    ensures Encode(SHAPES, r) ==
            PutWord(4) + PutWord(4) + (PutWord(0) + (PutWord(1) + (PutWord(2) + PutWord(3))))
            + (PutWord(3) + (Beat(0, n % COUNTER_WRAP) + (Beat(1, n % COUNTER_WRAP) + Beat(2, n % COUNTER_WRAP)))
               + ((PutWord(1) + (PutWord(3) + PutFields(TRANSFORM, r.pools[1][0].fields)))
                  + (PutWord(1) + (PutWord(3) + PutFields(FOLLOW, r.pools[2][0].fields)))))
  {
    hide PutFields, PutWord, Fits, PutPool, PutTail, Beat, PutWords;
    PopulatedIsWellFormed(r, n);
    SoundIsWritable(SHAPES, r.alive, r.pools);
    FourWords(0, 1, 2, 3);
    ThreeBeats(n % COUNTER_WRAP);
    OneSlot(TRANSFORM, 3, r.pools[1][0].fields);
    OneSlot(FOLLOW, 3, r.pools[2][0].fields);
    ThreePools(r.pools[0], r.pools[1], r.pools[2]);
    assert r.pools == [r.pools[0], r.pools[1], r.pools[2]];
    assert r.alive + r.free == [0, 1, 2, 3];
  }

  lemma SmallWord(n: Byte)
    ensures PutWord(n) == [n, 0, 0, 0]
  {
    WordWidth();
    assert n / 256 == 0 && n % 256 == n;
    assert Put(0, 0) == [] && Put(1, 0) == [0] + Put(0, 0);
    assert Put(2, 0) == [0] + Put(1, 0) && Put(3, 0) == [0] + Put(2, 0);
    assert Put(4, n) == [n] + Put(3, 0);
  }

  /** Single-precision fields follow each other in the order the component lists them, four bytes each. */
  lemma {:induction false} FloatAt(shape: Shape, fields: seq<nat>, k: nat)
    requires Fits(shape, fields) && k < |shape| && forall i :: 0 <= i < |shape| ==> shape[i] == 4
    ensures fields[k] < Pow256(4) && |PutFields(shape, fields)| == 4 * |shape|
    ensures PutFields(shape, fields)[4 * k..4 * k + 4] == Put(4, fields[k])
    decreases |shape|
  {
    var rest := PutFields(shape[1..], fields[1..]);
    assert PutFields(shape, fields) == Put(4, fields[0]) + rest;
    if |shape| > 1 {
      FloatAt(shape[1..], fields[1..], if k == 0 then 0 else k - 1);
    } else {
      assert rest == [];
    }
  }

  /** The app's state file for a snapshot that stands for `t.lineage` frames: 144 bytes, "KSNP" first. */
  ghost predicate IsStateFile(b: Data, t: Taken) {
    && |b| == 144 && |t.reg.pools| == 3 && |t.reg.pools[1]| == |t.reg.pools[2]| == 1
    && Fits([4, 4, 4, 4, 4, 4, 4, 4, 4, 4], t.reg.pools[1][0].fields) && Fits([4, 4, 4, 4], t.reg.pools[2][0].fields)
    && var n := t.lineage % 0x1_0000_0000_0000_0000;
       b == [0x4B, 0x53, 0x4E, 0x50] + PutWord(t.version) +
            ([4, 0, 0, 0] + [4, 0, 0, 0] + ([0, 0, 0, 0] + ([1, 0, 0, 0] + ([2, 0, 0, 0] + [3, 0, 0, 0])))
             + ([3, 0, 0, 0] + (Beat(0, n) + (Beat(1, n) + Beat(2, n)))
                + (([1, 0, 0, 0] + ([3, 0, 0, 0] + PutFields([4, 4, 4, 4, 4, 4, 4, 4, 4, 4], t.reg.pools[1][0].fields)))
                   + ([1, 0, 0, 0] + ([3, 0, 0, 0] + PutFields([4, 4, 4, 4], t.reg.pools[2][0].fields))))))
  }

  lemma TakenIsStateFile(t: Taken)
    requires Good(t)
    ensures IsStateFile(TakenBytes(t), t)
  {
    hide PutFields, Fits, Beat, Encode, WellFormed, Put;
    var r := t.reg;
    EncodedLayout(r, t.lineage);
    SmallWord(0);
    SmallWord(1);
    SmallWord(2);
    SmallWord(3);
    SmallWord(4);
    MagicText();
    FloatAt(TRANSFORM, r.pools[1][0].fields, 0);
    FloatAt(FOLLOW, r.pools[2][0].fields, 0);
  }

  lemma TakenSize(t: Taken)
    requires Good(t)
    ensures |TakenBytes(t)| == 144
  {
    TakenIsStateFile(t);
  }

  /** Over any run, the state file is absent or is the fixed 144-byte layout of the registry some frame left. */
  lemma StateFileLayout(s0: State, steps: seq<Step>)
    requires Installed(s0) && s0.path in Run(s0, steps).files
    ensures exists t: Taken :: SeenAfterFrame(s0, steps, t) && IsStateFile(Run(s0, steps).files[s0.path], t)
  {
    hide Run, IsStateFile, SeenAfterFrame, TakenBytes, Good;
    Reachable(s0, steps);
    PathStays(s0, steps);
    var s := Run(s0, steps);
    var t := s.onDisk.value;
    TakenWasSeen(s0, steps, t);
    TakenIsStateFile(t);
  }
}
