/**
 * The fixed-width binary archive: a number of `w` bytes is written least significant byte first,
 * and reading past the end throws. Floats travel as their 32-bit patterns.
 */
module Bytes {

  type Byte = b: int | 0 <= b < 256
  type Data = seq<Byte>
  type Word = n: int | 0 <= n < 0x1_0000_0000

  /** What one archive read does: throw on underflow, or yield a value and the unread remainder. */
  datatype Parsed<+T> = Thrown | Got(value: T, rest: Data)

  function Pow256(w: nat): (p: nat)
    ensures p > 0
  {
    if w == 0 then 1 else 256 * Pow256(w - 1)
  }

  lemma WordWidth()
    ensures Pow256(4) == 0x1_0000_0000
    ensures Pow256(8) == 0x1_0000_0000_0000_0000
  {
    assert Pow256(1) == 256;
    assert Pow256(2) == 0x1_0000;
    assert Pow256(3) == 0x100_0000;
    assert Pow256(5) == 0x100_0000_0000;
    assert Pow256(6) == 0x1_0000_0000_0000;
    assert Pow256(7) == 0x100_0000_0000_0000;
  }

  function Put(w: nat, v: nat): (b: Data)
    requires v < Pow256(w)
    ensures |b| == w
  {
    if w == 0 then [] else [v % 256] + Put(w - 1, v / 256)
  }

  function Take(w: nat, b: Data): (r: Parsed<nat>)
    ensures r.Thrown? <==> |b| < w
    ensures r.Got? ==> r.value < Pow256(w) && r.rest == b[w..]
  {
    if w == 0 then Got(0, b)
    else if b == [] then Thrown
    else match Take(w - 1, b[1..])
      case Thrown => Thrown
      case Got(v, rest) => Got(b[0] + 256 * v, rest)
  }

  lemma {:induction false} TakePut(w: nat, v: nat, s: Data)
    requires v < Pow256(w)
    ensures Take(w, Put(w, v) + s) == Got(v, s)
  {
    if w == 0 {
      assert Put(w, v) + s == s;
    } else {
      TakePut(w - 1, v / 256, s);
      assert (Put(w, v) + s)[1..] == Put(w - 1, v / 256) + s;
    }
  }

  lemma LowByte(low: Byte, high: nat)
    ensures (low + 256 * high) % 256 == low && (low + 256 * high) / 256 == high
  {
  }

  lemma {:induction false} PutTake(w: nat, b: Data)
    requires w <= |b|
    ensures Put(w, Take(w, b).value) == b[..w]
  {
    if w == 0 {
    } else {
      PutTake(w - 1, b[1..]);
      var v := Take(w - 1, b[1..]).value;
      LowByte(b[0], v);
      assert b[..w] == [b[0]] + b[1..][..w - 1];
    }
  }

  lemma {:induction false} TakeExtends(w: nat, b: Data, s: Data)
    requires w <= |b|
    ensures Take(w, b + s) == Got(Take(w, b).value, Take(w, b).rest + s)
  {
    if w == 0 {
    } else {
      TakeExtends(w - 1, b[1..], s);
      assert (b + s)[1..] == b[1..] + s;
    }
  }

  /** cereal::BinaryOutputArchive over a string stream. */
  class OutArchive {
    var bytes: Data

    constructor ()
      ensures bytes == []
    {
      bytes := [];
    }

    method Save(w: nat, v: nat)
      requires v < Pow256(w)
      modifies this
      ensures bytes == old(bytes) + Put(w, v)
    {
      bytes := bytes + Put(w, v);
    }
  }

  /** cereal::BinaryInputArchive positioned somewhere inside an already opened file. */
  class InArchive {
    const data: Data
    var pos: nat

    constructor (data: Data, pos: nat)
      requires pos <= |data|
      ensures this.data == data && this.pos == pos && Valid()
    {
      this.data := data;
      this.pos := pos;
    }

    predicate Valid()
      reads this
    {
      pos <= |data|
    }

    function Rest(): Data
      requires Valid()
      reads this
    {
      data[pos..]
    }

    method Load(w: nat) returns (r: Parsed<nat>)
      requires Valid()
      modifies this
      ensures Valid() && r == Take(w, old(Rest()))
      ensures r.Got? ==> Rest() == r.rest
    {
      r := Take(w, Rest());
      if r.Got? {
        assert data[pos + w..] == Rest()[w..];
        pos := pos + w;
      }
    }
  }
}
